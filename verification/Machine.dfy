/** Machines that read one input at a time and emit output as they go. */
module Machine {

  /** The state after `input`, and everything emitted on the way. */
  function Run<S, C, O>(step: (S, C) -> (S, seq<O>), s: S, input: seq<C>): (S, seq<O>)
    decreases |input|
  {
    if input == [] then (s, [])
    else
      var (s1, out1) := step(s, input[0]);
      var (s2, out2) := Run(step, s1, input[1..]);
      (s2, out1 + out2)
  }

  /** Splitting the input does not change what happens. */
  lemma {:induction false} RunConcat<S, C, O>(step: (S, C) -> (S, seq<O>), s: S, a: seq<C>, b: seq<C>)
    ensures var (s1, out1) := Run(step, s, a); var (s2, out2) := Run(step, s1, b);
      Run(step, s, a + b) == (s2, out1 + out2)
    decreases |a|
  {
    if a == [] {
      assert a + b == b;
      assert [] + Run(step, s, b).1 == Run(step, s, b).1;
    } else {
      assert (a + b)[1..] == a[1..] + b;
      var (s1, out1) := step(s, a[0]);
      RunConcat(step, s1, a[1..], b);
      var (s2, out2) := Run(step, s1, a[1..]);
      assert out1 + (out2 + Run(step, s2, b).1) == (out1 + out2) + Run(step, s2, b).1;
    }
  }

  lemma RunOne<S, C, O>(step: (S, C) -> (S, seq<O>), s: S, c: C)
    ensures Run(step, s, [c]) == step(s, c)
  {
    var (s1, out) := step(s, c);
    assert [c][1..] == [];
    assert Run(step, s1, []) == (s1, []);
    assert out + [] == out;
  }

  lemma RunAppend<S, C, O>(step: (S, C) -> (S, seq<O>), s: S, input: seq<C>, c: C)
    ensures var (s1, out1) := Run(step, s, input); var (s2, out2) := step(s1, c);
      Run(step, s, input + [c]) == (s2, out1 + out2)
  {
    RunConcat(step, s, input, [c]);
    RunOne(step, Run(step, s, input).0, c);
  }
}
