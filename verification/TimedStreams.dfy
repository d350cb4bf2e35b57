/** Streams of timed bytes through a machine that answers each byte with a return code. */
module TimedStreams {
  import opened LlpFrame

  type Machine<!S> = (S, byte, nat) -> (S, int)

  /** The state and the return codes after a stream. */
  ghost function Run<S>(step: Machine<S>, s: S, bytes: seq<byte>, times: seq<nat>): (r: (S, seq<int>))
    requires |bytes| == |times|
    ensures |r.1| == |bytes|
    decreases |bytes|
  {
    if bytes == [] then (s, [])
    else
      var (t, code) := step(s, bytes[0], times[0]);
      var (u, codes) := Run(step, t, bytes[1..], times[1..]);
      (u, [code] + codes)
  }

  lemma {:induction false} RunAppend<S>(step: Machine<S>, s: S, a: seq<byte>, b: seq<byte>, ta: seq<nat>, tb: seq<nat>)
    requires |a| == |ta| && |b| == |tb|
    ensures var first := Run(step, s, a, ta);
            var second := Run(step, first.0, b, tb);
            Run(step, s, a + b, ta + tb) == (second.0, first.1 + second.1)
    decreases |a|
  {
    if a == [] {
      assert a + b == b && ta + tb == tb;
      assert Run(step, s, a, ta) == (s, []) && [] + Run(step, s, b, tb).1 == Run(step, s, b, tb).1;
    } else {
      assert (a + b)[1..] == a[1..] + b && (ta + tb)[1..] == ta[1..] + tb;
      var (t, code) := step(s, a[0], ta[0]);
      RunAppend(step, t, a[1..], b, ta[1..], tb);
      var rest := Run(step, t, a[1..], ta[1..]);
      var second := Run(step, rest.0, b, tb);
      assert [code] + (rest.1 + second.1) == ([code] + rest.1) + second.1;
      assert (a + b)[0] == a[0] && (ta + tb)[0] == ta[0];
    }
  }

  lemma RunSplit<S>(step: Machine<S>, s: S, a: seq<byte>, b: seq<byte>, times: seq<nat>)
    requires |times| == |a| + |b|
    ensures var first := Run(step, s, a, times[..|a|]);
            var second := Run(step, first.0, b, times[|a|..]);
            var all := Run(step, s, a + b, times);
            all.0 == second.0 && all.1[..|a|] == first.1 && all.1[|a|..] == second.1 && all.1 == first.1 + second.1
  {
    RunAppend(step, s, a, b, times[..|a|], times[|a|..]);
    assert times[..|a|] + times[|a|..] == times;
  }

  lemma RunOne<S>(step: Machine<S>, s: S, bytes: seq<byte>, times: seq<nat>)
    requires |bytes| == |times| == 1
    ensures var r := step(s, bytes[0], times[0]);
            Run(step, s, bytes, times) == (r.0, [r.1])
  {
    var r := step(s, bytes[0], times[0]);
    assert Run(step, r.0, bytes[1..], times[1..]) == (r.0, []);
    assert [r.1] + [] == [r.1];
  }

  lemma RunTwo<S>(step: Machine<S>, s: S, bytes: seq<byte>, times: seq<nat>)
    requires |bytes| == |times| == 2
    ensures var q := step(s, bytes[0], times[0]);
            var r := step(q.0, bytes[1], times[1]);
            Run(step, s, bytes, times) == (r.0, [q.1, r.1])
  {
    var q := step(s, bytes[0], times[0]);
    RunOne(step, q.0, bytes[1..], times[1..]);
    var r := step(q.0, bytes[1], times[1]);
    assert [q.1] + [r.1] == [q.1, r.1];
  }

  ghost function Zeros(n: nat): (z: seq<int>)
    ensures |z| == n
  {
    seq(n, _ => 0)
  }

  /** A stream that is answered with 0 except on its last byte. */
  ghost predicate Silent(codes: seq<int>, verdict: int) {
    codes != [] && codes == Zeros(|codes| - 1) + [verdict]
  }

  lemma SilentJoin(a: seq<int>, b: seq<int>, verdict: int)
    requires Silent(a, 0) && Silent(b, verdict)
    ensures Silent(a + b, verdict)
  {
    assert Zeros(|a| - 1) + [0] == Zeros(|a|);
    assert Zeros(|a|) + Zeros(|b| - 1) == Zeros(|a| + |b| - 1);
  }

  lemma SilentRuns<S>(step: Machine<S>, s: S, a: seq<byte>, b: seq<byte>, times: seq<nat>,
                      first: (S, seq<int>), second: (S, seq<int>), verdict: int)
    requires |times| == |a| + |b|
    requires Run(step, s, a, times[..|a|]) == first && Silent(first.1, 0)
    requires Run(step, first.0, b, times[|a|..]) == second && Silent(second.1, verdict)
    ensures Run(step, s, a + b, times) == (second.0, first.1 + second.1) && Silent(first.1 + second.1, verdict)
  {
    RunSplit(step, s, a, b, times);
    SilentJoin(first.1, second.1, verdict);
  }

  /** Everything that the machine's answers bring, in order. */
  ghost function Yield<S>(step: Machine<S>, bring: ((S, int)) -> seq<byte>, s: S, bytes: seq<byte>, times: seq<nat>): seq<byte>
    requires |bytes| == |times|
    decreases |bytes|
  {
    if bytes == [] then []
    else
      var r := step(s, bytes[0], times[0]);
      bring(r) + Yield(step, bring, r.0, bytes[1..], times[1..])
  }

  lemma {:induction false} YieldGrows<S>(step: Machine<S>, bring: ((S, int)) -> seq<byte>, s: S,
                                         bytes: seq<byte>, times: seq<nat>, b: byte, now: nat)
    requires |bytes| == |times|
    ensures var r := step(Run(step, s, bytes, times).0, b, now);
            && Run(step, s, bytes + [b], times + [now]).0 == r.0
            && Yield(step, bring, s, bytes + [b], times + [now]) == Yield(step, bring, s, bytes, times) + bring(r)
    decreases |bytes|
  {
    if bytes == [] {
      assert (bytes + [b])[1..] == [] && (times + [now])[1..] == [];
    } else {
      assert (bytes + [b])[1..] == bytes[1..] + [b] && (times + [now])[1..] == times[1..] + [now];
      YieldGrows(step, bring, step(s, bytes[0], times[0]).0, bytes[1..], times[1..], b, now);
    }
  }
}
