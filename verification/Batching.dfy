/** Splitting a relevance search into requests of bounded size, and putting the answers, which arrive
    in any order, back together. */
module Batching {
  import opened Common

  datatype Chunk = Chunk(id: string, text: string)

  const RECALL_BATCH_CHARS: nat := 40_000

  function Size(chunks: seq<Chunk>): nat {
    if chunks == [] then 0 else Size(chunks[..|chunks| - 1]) + |chunks[|chunks| - 1].text|
  }

  function Flat<T>(batches: seq<seq<T>>): seq<T> {
    if batches == [] then [] else Flat(batches[..|batches| - 1]) + batches[|batches| - 1]
  }

  /** A batch within the limit, or a single chunk. */
  predicate Fits(batch: seq<Chunk>, limit: nat) { batch != [] && (|batch| == 1 || Size(batch) <= limit) }

  /** A split of `chunks`: consecutive non-empty batches, each within the limit or a single chunk. */
  predicate IsSplit(batches: seq<seq<Chunk>>, chunks: seq<Chunk>, limit: nat) {
    Flat(batches) == chunks && forall i | 0 <= i < |batches| :: Fits(batches[i], limit)
  }

  lemma SizeConcat(a: seq<Chunk>, b: seq<Chunk>)
    ensures Size(a + b) == Size(a) + Size(b)
    decreases |b|
  {
    if b == [] {
      assert a + b == a;
    } else {
      assert (a + b)[..|a + b| - 1] == a + b[..|b| - 1];
      SizeConcat(a, b[..|b| - 1]);
    }
  }

  lemma FlatAppend<T>(batches: seq<seq<T>>, batch: seq<T>)
    ensures Flat(batches + [batch]) == Flat(batches) + batch
  {
    assert (batches + [batch])[..|batches|] == batches;
  }

  lemma SplitAppend(batches: seq<seq<Chunk>>, chunks: seq<Chunk>, batch: seq<Chunk>, limit: nat)
    requires IsSplit(batches, chunks, limit) && Fits(batch, limit)
    ensures IsSplit(batches + [batch], chunks + batch, limit)
  {
    FlatAppend(batches, batch);
  }

  // ---- Fewest batches ----

  /** Splitting fewer chunks never takes more batches: a split of all of them restricts to one of the
      first `n`. */
  lemma {:induction false} SplitOfPrefix(batches: seq<seq<Chunk>>, chunks: seq<Chunk>, limit: nat, n: nat) returns (shorter: seq<seq<Chunk>>)
    requires IsSplit(batches, chunks, limit) && n <= |chunks|
    ensures IsSplit(shorter, chunks[..n], limit) && |shorter| <= |batches|
    decreases |batches|
  {
    if batches == [] {
      shorter := [];
      assert chunks[..n] == [];
    } else {
      var init, last := batches[..|batches| - 1], batches[|batches| - 1];
      var before := Flat(init);
      assert IsSplit(init, before, limit);
      assert chunks == before + last;
      if n <= |before| {
        shorter := SplitOfPrefix(init, before, limit, n);
        assert chunks[..n] == before[..n];
      } else {
        var part := last[..n - |before|];
        SizeConcat(part, last[n - |before|..]);
        assert last == part + last[n - |before|..];
        shorter := init + [part];
        SplitAppend(init, before, part, limit);
        assert chunks[..n] == before + part;
      }
    }
  }

  /** No split of `chunks` has fewer batches. */
  ghost predicate Fewest(batches: nat, chunks: seq<Chunk>, limit: nat) {
    forall other | IsSplit(other, chunks, limit) :: batches <= |other|
  }

  lemma TooWide(chunks: seq<Chunk>, from: nat, start: nat, index: nat, limit: nat)
    requires from <= start < index < |chunks| && Size(chunks[start..index + 1]) > limit
    ensures !Fits(chunks[from..index + 1], limit)
  {
    SizeConcat(chunks[from..start], chunks[start..index + 1]);
    assert chunks[from..index + 1] == chunks[from..start] + chunks[start..index + 1];
  }

  lemma LastBatch(other: seq<seq<Chunk>>, chunks: seq<Chunk>, limit: nat)
    requires IsSplit(other, chunks, limit) && chunks != []
    ensures other != []
    ensures var before := Flat(other[..|other| - 1]);
      |before| <= |chunks| && before == chunks[..|before|] && other[|other| - 1] == chunks[|before|..]
      && IsSplit(other[..|other| - 1], before, limit)
  {
    var before := Flat(other[..|other| - 1]);
    assert chunks == before + other[|other| - 1];
  }

  /** If a batch cannot take the next chunk, one more batch is needed to get past it. */
  lemma OneMore(chunks: seq<Chunk>, start: nat, index: nat, limit: nat, other: seq<seq<Chunk>>, done: nat)
    requires start < index < |chunks| && Fewest(done + 1, chunks[..start + 1], limit)
    requires Size(chunks[start..index + 1]) > limit
    requires IsSplit(other, chunks[..index + 1], limit)
    ensures |other| >= done + 2
  {
    LastBatch(other, chunks[..index + 1], limit);
    var before := Flat(other[..|other| - 1]);
    assert chunks[..index + 1][|before|..] == chunks[|before|..index + 1];
    if |before| <= start {
      TooWide(chunks, |before|, start, index, limit);
      assert false;
    } else {
      var shorter := SplitOfPrefix(other[..|other| - 1], before, limit, start + 1);
      assert before[..start + 1] == chunks[..start + 1];
    }
  }

  /** What greedy splitting keeps, with the batch `chunks[start..index]` still open: what is closed is a
      split, and no split reaches past `start` with fewer batches. */
  datatype Claim = Valid | Within | Tight

  ghost predicate Claims(claim: Claim, chunks: seq<Chunk>, limit: nat, batches: seq<seq<Chunk>>, start: nat, index: nat)
    requires start < index <= |chunks|
  {
    match claim
    case Valid => IsSplit(batches, chunks[..start], limit)
    case Within => Fits(chunks[start..index], limit)
    case Tight => Fewest(|batches| + 1, chunks[..start + 1], limit)
  }

  ghost predicate Greedy(chunks: seq<Chunk>, limit: nat, batches: seq<seq<Chunk>>, start: nat, index: nat) {
    start < index <= |chunks| && forall claim :: Claims(claim, chunks, limit, batches, start, index)
  }

  lemma GreedyIs(chunks: seq<Chunk>, limit: nat, batches: seq<seq<Chunk>>, start: nat, index: nat)
    requires Greedy(chunks, limit, batches, start, index)
    ensures IsSplit(batches, chunks[..start], limit) && Fits(chunks[start..index], limit)
    ensures Fewest(|batches| + 1, chunks[..start + 1], limit)
  {
    assert Claims(Valid, chunks, limit, batches, start, index) && Claims(Within, chunks, limit, batches, start, index);
    assert Claims(Tight, chunks, limit, batches, start, index);
  }

  lemma GreedyFrom(chunks: seq<Chunk>, limit: nat, batches: seq<seq<Chunk>>, start: nat, index: nat)
    requires start < index <= |chunks|
    requires IsSplit(batches, chunks[..start], limit) && Fits(chunks[start..index], limit)
    requires Fewest(|batches| + 1, chunks[..start + 1], limit)
    ensures Greedy(chunks, limit, batches, start, index)
  {
  }

  lemma GreedyStarts(chunks: seq<Chunk>, limit: nat)
    requires chunks != []
    ensures Greedy(chunks, limit, [], 0, 1)
  {
    assert chunks[0..1] == [chunks[0]];
    forall other | IsSplit(other, chunks[..1], limit) ensures 1 <= |other| {
      assert other == [] ==> Flat(other) == [];
    }
    GreedyFrom(chunks, limit, [], 0, 1);
  }

  lemma StretchFits(chunks: seq<Chunk>, limit: nat, start: nat, index: nat)
    requires start < index < |chunks| && Size(chunks[start..index + 1]) <= limit
    ensures Fits(chunks[start..index + 1], limit)
  {
  }

  lemma GreedyTakes(chunks: seq<Chunk>, limit: nat, batches: seq<seq<Chunk>>, start: nat, index: nat)
    requires Greedy(chunks, limit, batches, start, index) && index < |chunks| && Size(chunks[start..index + 1]) <= limit
    ensures Greedy(chunks, limit, batches, start, index + 1)
  {
    var next := index + 1;
    forall claim ensures Claims(claim, chunks, limit, batches, start, next) {
      assert Claims(claim, chunks, limit, batches, start, index);
      if claim.Within? {
        StretchFits(chunks, limit, start, index);
      }
    }
  }

  lemma Stretch(chunks: seq<Chunk>, a: nat, b: nat)
    requires a <= b <= |chunks|
    ensures chunks[..a] + chunks[a..b] == chunks[..b]
  {
  }

  lemma ClosesSplit(chunks: seq<Chunk>, limit: nat, batches: seq<seq<Chunk>>, start: nat, index: nat)
    requires Greedy(chunks, limit, batches, start, index)
    ensures IsSplit(batches + [chunks[start..index]], chunks[..index], limit)
  {
    GreedyIs(chunks, limit, batches, start, index);
    SplitAppend(batches, chunks[..start], chunks[start..index], limit);
    Stretch(chunks, start, index);
  }

  lemma ClosesFewest(chunks: seq<Chunk>, limit: nat, batches: seq<seq<Chunk>>, start: nat, index: nat)
    requires Greedy(chunks, limit, batches, start, index) && index < |chunks| && Size(chunks[start..index + 1]) > limit
    ensures Fewest(|batches| + 2, chunks[..index + 1], limit)
  {
    GreedyIs(chunks, limit, batches, start, index);
    forall other | IsSplit(other, chunks[..index + 1], limit) ensures |batches| + 2 <= |other| {
      OneMore(chunks, start, index, limit, other, |batches|);
    }
  }

  lemma OneChunk(chunks: seq<Chunk>, index: nat, limit: nat)
    requires index < |chunks|
    ensures Fits(chunks[index..index + 1], limit) && Size(chunks[index..index + 1]) == |chunks[index].text|
  {
    assert chunks[index..index + 1] == [chunks[index]];
    SizeNext(chunks, index, index);
  }

  lemma GreedyCloses(chunks: seq<Chunk>, limit: nat, batches: seq<seq<Chunk>>, start: nat, index: nat)
    requires Greedy(chunks, limit, batches, start, index) && index < |chunks| && Size(chunks[start..index + 1]) > limit
    ensures Greedy(chunks, limit, batches + [chunks[start..index]], index, index + 1)
  {
    ClosesSplit(chunks, limit, batches, start, index);
    ClosesFewest(chunks, limit, batches, start, index);
    OneChunk(chunks, index, limit);
    GreedyFrom(chunks, limit, batches + [chunks[start..index]], index, index + 1);
  }

  /** What the first chunks need, all of them need. */
  lemma FewestOfMore(batches: nat, chunks: seq<Chunk>, limit: nat, n: nat)
    requires n <= |chunks| && Fewest(batches, chunks[..n], limit)
    ensures Fewest(batches, chunks, limit)
  {
    forall other | IsSplit(other, chunks, limit) ensures batches <= |other| {
      var shorter := SplitOfPrefix(other, chunks, limit, n);
      assert IsSplit(shorter, chunks[..n], limit);
    }
  }

  lemma WholeStretch(chunks: seq<Chunk>, start: nat)
    requires start <= |chunks|
    ensures chunks[start..|chunks|] == chunks[start..] && chunks[..|chunks|] == chunks
  {
  }

  lemma GreedyEnds(chunks: seq<Chunk>, limit: nat, batches: seq<seq<Chunk>>, start: nat)
    requires Greedy(chunks, limit, batches, start, |chunks|)
    ensures IsSplit(batches + [chunks[start..]], chunks, limit) && Fewest(|batches| + 1, chunks, limit)
  {
    GreedyIs(chunks, limit, batches, start, |chunks|);
    WholeStretch(chunks, start);
    ClosesSplit(chunks, limit, batches, start, |chunks|);
    FewestOfMore(|batches| + 1, chunks, limit, start + 1);
  }

  lemma SizeNext(chunks: seq<Chunk>, start: nat, index: nat)
    requires start <= index < |chunks|
    ensures Size(chunks[start..index + 1]) == Size(chunks[start..index]) + |chunks[index].text|
  {
    assert chunks[start..index + 1] == chunks[start..index] + [chunks[index]];
    SizeConcat(chunks[start..index], [chunks[index]]);
    assert [chunks[index]][..0] == [];
  }

  /** Where the loop stands before chunk `index`: nothing yet, or a batch open since `start`. */
  ghost predicate Batched(chunks: seq<Chunk>, batches: seq<seq<Chunk>>, start: nat, index: nat) {
    if index == 0 then batches == [] && start == 0 else Greedy(chunks, RECALL_BATCH_CHARS, batches, start, index)
  }

  lemma TakesChunk(chunks: seq<Chunk>, batches: seq<seq<Chunk>>, start: nat, index: nat)
    requires start <= index < |chunks| && Batched(chunks, batches, start, index)
    requires index == start || Size(chunks[start..index + 1]) <= RECALL_BATCH_CHARS
    ensures Batched(chunks, batches, start, index + 1)
  {
    if index == 0 {
      GreedyStarts(chunks, RECALL_BATCH_CHARS);
    } else {
      GreedyTakes(chunks, RECALL_BATCH_CHARS, batches, start, index);
    }
  }

  lemma OpensBatch(chunks: seq<Chunk>, batches: seq<seq<Chunk>>, start: nat, index: nat)
    requires start < index < |chunks| && Batched(chunks, batches, start, index) && Size(chunks[start..index + 1]) > RECALL_BATCH_CHARS
    ensures Batched(chunks, batches + [chunks[start..index]], index, index + 1)
  {
    GreedyCloses(chunks, RECALL_BATCH_CHARS, batches, start, index);
  }

  lemma BatchedAll(chunks: seq<Chunk>, batches: seq<seq<Chunk>>, start: nat)
    requires Batched(chunks, batches, start, |chunks|)
    ensures start <= |chunks|
    ensures var all := if start < |chunks| then batches + [chunks[start..]] else batches;
      IsSplit(all, chunks, RECALL_BATCH_CHARS) && Fewest(|all|, chunks, RECALL_BATCH_CHARS)
  {
    if chunks != [] {
      GreedyEnds(chunks, RECALL_BATCH_CHARS, batches, start);
    }
  }

  /** One chunk more: the open batch takes it, or is closed for a new one. */
  method Place(chunks: seq<Chunk>, batches: seq<seq<Chunk>>, start: nat, index: nat, size: nat)
    returns (batches': seq<seq<Chunk>>, start': nat, size': nat)
    requires start <= index < |chunks| && size == Size(chunks[start..index]) && Batched(chunks, batches, start, index)
    ensures start' <= index + 1 && size' == Size(chunks[start'..index + 1]) && Batched(chunks, batches', start', index + 1)
  {
    var length := |chunks[index].text|;
    SizeNext(chunks, start, index);
    if index > start && size + length > RECALL_BATCH_CHARS {
      OpensBatch(chunks, batches, start, index);
      OneChunk(chunks, index, RECALL_BATCH_CHARS);
      return batches + [chunks[start..index]], index, length;
    }
    TakesChunk(chunks, batches, start, index);
    return batches, start, size + length;
  }

  /** Splits chunks greedily, into as few batches as any split can have. */
  method RecallBatches(chunks: seq<Chunk>) returns (batches: seq<seq<Chunk>>)
    ensures IsSplit(batches, chunks, RECALL_BATCH_CHARS)
    ensures Fewest(|batches|, chunks, RECALL_BATCH_CHARS)
  {
    batches := [];
    var start: nat, size: nat := 0, 0;
    for index := 0 to |chunks|
      invariant start <= index && size == Size(chunks[start..index]) && Batched(chunks, batches, start, index)
    {
      batches, start, size := Place(chunks, batches, start, index, size);
    }
    BatchedAll(chunks, batches, start);
    if start < |chunks| {
      batches := batches + [chunks[start..]];
    }
  }

  // ---- Answers in any order ----

  datatype Answer = Answer(index: nat, scores: seq<real>)

  predicate Ordered(answers: seq<Answer>) { forall i, j | 0 <= i < j < |answers| :: answers[i].index <= answers[j].index }

  function Inserted(sorted: seq<Answer>, p: nat, a: Answer): (more: seq<Answer>)
    requires p <= |sorted|
    ensures |more| == |sorted| + 1
    ensures forall i | 0 <= i < |more| :: more[i] == if i < p then sorted[i] else if i == p then a else sorted[i - 1]
  {
    sorted[..p] + [a] + sorted[p..]
  }

  lemma InsertedOrdered(sorted: seq<Answer>, p: nat, a: Answer)
    requires p <= |sorted| && Ordered(sorted) && (p > 0 ==> sorted[p - 1].index <= a.index)
    requires forall i | p <= i < |sorted| :: a.index < sorted[i].index
    ensures Ordered(Inserted(sorted, p, a))
  {
  }

  lemma InsertedHolds(sorted: seq<Answer>, p: nat, a: Answer)
    requires p <= |sorted|
    ensures multiset(Inserted(sorted, p, a)) == multiset(sorted) + multiset{a}
  {
    assert sorted == sorted[..p] + sorted[p..];
  }

  method InsertByIndex(sorted: seq<Answer>, a: Answer) returns (more: seq<Answer>)
    requires Ordered(sorted)
    ensures Ordered(more) && multiset(more) == multiset(sorted) + multiset{a}
  {
    var p := |sorted|;
    while p > 0 && sorted[p - 1].index > a.index
      invariant 0 <= p <= |sorted| && forall i | p <= i < |sorted| :: a.index < sorted[i].index
    {
      p := p - 1;
    }
    more := Inserted(sorted, p, a);
    InsertedOrdered(sorted, p, a);
    InsertedHolds(sorted, p, a);
  }

  /** Sorts by index; answers with one index keep their order. */
  method SortByIndex(answers: seq<Answer>) returns (sorted: seq<Answer>)
    ensures multiset(sorted) == multiset(answers) && Ordered(sorted)
  {
    sorted := [];
    for n := 0 to |answers|
      invariant multiset(sorted) == multiset(answers[..n]) && Ordered(sorted)
    {
      assert answers[..n + 1] == answers[..n] + [answers[n]];
      sorted := InsertByIndex(sorted, answers[n]);
    }
    assert answers[..|answers|] == answers;
  }

  /** Every batch answered exactly once, `given[i]` being the scores of batch `i`. */
  predicate Complete(answers: seq<Answer>, given: seq<seq<real>>) {
    multiset(answers) == multiset(InOrder(given))
  }

  function InOrder(given: seq<seq<real>>): (answers: seq<Answer>)
    ensures |answers| == |given|
  {
    seq(|given|, i requires 0 <= i < |given| => Answer(i, given[i]))
  }

  lemma DropLast(a: seq<Answer>, b: seq<Answer>, last: Answer)
    requires multiset(a + [last]) == multiset(b + [last])
    ensures multiset(a) == multiset(b)
  {
    assert multiset(a) == multiset(a + [last]) - multiset{last};
    assert multiset(b) == multiset(b + [last]) - multiset{last};
  }

  lemma LastInOrder(sorted: seq<Answer>, given: seq<seq<real>>)
    requires given != [] && Ordered(sorted) && multiset(sorted) == multiset(InOrder(given))
    ensures |sorted| == |given| && sorted[|given| - 1] == Answer(|given| - 1, given[|given| - 1])
  {
    assert |sorted| == |multiset(sorted)| == |multiset(InOrder(given))| == |given|;
    var k := |given| - 1;
    var last := InOrder(given)[k];
    assert last in multiset(sorted);
    var i :| 0 <= i < |sorted| && sorted[i] == last;
    assert sorted[k] in multiset(InOrder(given));
    var j :| 0 <= j < |given| && InOrder(given)[j] == sorted[k];
    assert i < k ==> sorted[i].index <= sorted[k].index;
  }

  lemma {:induction false} SortedIsInOrder(sorted: seq<Answer>, given: seq<seq<real>>)
    requires Ordered(sorted) && multiset(sorted) == multiset(InOrder(given))
    ensures sorted == InOrder(given)
    decreases |given|
  {
    if given == [] {
      assert |sorted| == |multiset(sorted)|;
    } else {
      var k := |given| - 1;
      LastInOrder(sorted, given);
      assert InOrder(given) == InOrder(given[..k]) + [sorted[k]];
      assert sorted == sorted[..k] + [sorted[k]];
      DropLast(sorted[..k], InOrder(given[..k]), sorted[k]);
      SortedIsInOrder(sorted[..k], given[..k]);
    }
  }

  /** Puts the answers back together: in whatever order they arrived, the scores are those of batch 0,
      then batch 1, and so on. */
  method Reassemble(answers: seq<Answer>, ghost given: seq<seq<real>>) returns (scores: seq<real>)
    requires Complete(answers, given)
    ensures scores == Flat(given)
  {
    var sorted := SortByIndex(answers);
    SortedIsInOrder(sorted, given);
    scores := [];
    for i := 0 to |sorted|
      invariant scores == Flat(given[..i])
    {
      FlatAppend(given[..i], given[i]);
      assert given[..i + 1] == given[..i] + [given[i]];
      scores := scores + sorted[i].scores;
    }
    assert given[..|given|] == given;
  }

  lemma {:induction false} FlatLength<S, T>(a: seq<seq<S>>, b: seq<seq<T>>)
    requires |a| == |b| && forall i | 0 <= i < |a| :: |a[i]| == |b[i]|
    ensures |Flat(a)| == |Flat(b)|
  {
    if a != [] {
      FlatLength(a[..|a| - 1], b[..|b| - 1]);
    }
  }

  /** The `k`-th element of batch `i` and of the answers to batch `i` are at the same place overall. */
  lemma {:induction false} FlatAligned<S, T>(a: seq<seq<S>>, b: seq<seq<T>>, i: nat, k: nat) returns (at: nat)
    requires |a| == |b| && (forall j | 0 <= j < |a| :: |a[j]| == |b[j]|) && i < |a| && k < |a[i]|
    ensures at < |Flat(a)| && at < |Flat(b)| && Flat(a)[at] == a[i][k] && Flat(b)[at] == b[i][k]
    decreases |a|
  {
    var init := |a| - 1;
    FlatLength(a[..init], b[..init]);
    if i == init {
      at := |Flat(a[..init])| + k;
    } else {
      at := FlatAligned(a[..init], b[..init], i, k);
    }
  }
}
