/**
 Windows of the planner's ring of blocks, and what the two passes of a replan do to them.
 */
module RingWindow {
  import opened Axes
  import opened Blocks
  import opened PlannerTheory
  import Rings

  /** Position `k` places after index `from` in the ring. */
  function Ring(from: nat, k: nat): (i: nat)
    requires from < BLOCK_BUFFER_SIZE && k <= BLOCK_BUFFER_SIZE
    ensures i < BLOCK_BUFFER_SIZE
  {
    Rings.Place(from, k, BLOCK_BUFFER_SIZE)
  }

  /** How many places index `to` lies after index `from`. */
  function Distance(from: nat, to: nat): (d: nat)
    requires from < BLOCK_BUFFER_SIZE && to < BLOCK_BUFFER_SIZE
    ensures d < BLOCK_BUFFER_SIZE && Ring(from, d) == to
  {
    Rings.Gap(from, to, BLOCK_BUFFER_SIZE)
  }

  /** plan_next_block_index. */
  function NextIndex(i: nat): (r: nat)
    requires i < BLOCK_BUFFER_SIZE
    ensures r == Ring(i, 1)
  {
    Rings.Successor(i, BLOCK_BUFFER_SIZE)
  }

  /** plan_prev_block_index. */
  function PrevIndex(i: nat): (r: nat)
    requires i < BLOCK_BUFFER_SIZE
    ensures r < BLOCK_BUFFER_SIZE && NextIndex(r) == i
  {
    (if i == 0 then BLOCK_BUFFER_SIZE else i) - 1
  }

  /** The `len` blocks that start at index `from` of the ring. */
  function Window(buffer: seq<PlanBlock>, from: nat, len: nat): (w: seq<PlanBlock>)
    requires |buffer| == BLOCK_BUFFER_SIZE && from < BLOCK_BUFFER_SIZE && len <= BLOCK_BUFFER_SIZE
    ensures |w| == len
    ensures forall k: nat {:trigger w[k]} :: k < len ==> w[k] == buffer[Ring(from, k)]
  {
    seq(len, k requires 0 <= k < len => buffer[Ring(from, k)])
  }

  lemma WindowUpdate(buffer: seq<PlanBlock>, from: nat, len: nat, k: nat, b: PlanBlock)
    requires |buffer| == BLOCK_BUFFER_SIZE && from < BLOCK_BUFFER_SIZE && k < len <= BLOCK_BUFFER_SIZE
    ensures Window(buffer[Ring(from, k) := b], from, len) == Window(buffer, from, len)[k := b]
  {
  }

  lemma WindowOutside(buffer: seq<PlanBlock>, from: nat, len: nat, i: nat, b: PlanBlock)
    requires |buffer| == BLOCK_BUFFER_SIZE && from < BLOCK_BUFFER_SIZE && len <= BLOCK_BUFFER_SIZE
    requires i < BLOCK_BUFFER_SIZE && Distance(from, i) >= len
    ensures Window(buffer[i := b], from, len) == Window(buffer, from, len)
  {
  }

  lemma WindowSuffix(buffer: seq<PlanBlock>, from: nat, len: nat, p: nat)
    requires |buffer| == BLOCK_BUFFER_SIZE && from < BLOCK_BUFFER_SIZE && p <= len <= BLOCK_BUFFER_SIZE
    ensures Window(buffer, Ring(from, p), len - p) == Window(buffer, from, len)[p..]
  {
  }

  /** Blocks that differ in entry speed only. */
  ghost predicate EntriesOnly(a: seq<PlanBlock>, b: seq<PlanBlock>) {
    && |a| == |b|
    && forall k: nat {:trigger b[k]} | k < |a| :: b[k] == a[k].(entrySqr := b[k].entrySqr)
  }

  lemma EntriesAreLegs(a: seq<PlanBlock>, b: seq<PlanBlock>)
    requires EntriesOnly(a, b)
    ensures b == WithEntries(a, Legs(b))
  {
    var legs := Legs(b);
    forall k: nat | k < |a| ensures b[k] == WithEntries(a, legs)[k] {
      assert legs[k] == LegOf(b[k]);
    }
  }

  predicate NonNegative(b: PlanBlock) {
    && b.entrySqr >= 0.0 && b.maxEntrySqr >= 0.0 && b.acceleration >= 0.0 && b.millimeters >= 0.0
    && b.maxJunctionSqr >= 0.0
  }

  // ---------------------------------------------------------------------------
  // The passes on a window of the ring
  // ---------------------------------------------------------------------------

  /** The window with its first block as in `w`: the reverse pass neither reads nor writes that one. */
  ghost function Swept(buffer: seq<PlanBlock>, p: nat, w: seq<PlanBlock>): (x: seq<PlanBlock>)
    requires |buffer| == BLOCK_BUFFER_SIZE && p < BLOCK_BUFFER_SIZE && 1 <= |w| <= BLOCK_BUFFER_SIZE
    ensures |x| == |w|
  {
    Window(buffer, p, |w|)[0 := w[0]]
  }

  /** With block `k` of the window next, the rest of the reverse pass leads to `goal`. */
  ghost predicate Reversing(buffer: seq<PlanBlock>, p: nat, w: seq<PlanBlock>, k: nat, goal: seq<Leg>) {
    && |buffer| == BLOCK_BUFFER_SIZE && p < BLOCK_BUFFER_SIZE && k + 1 < |w| <= BLOCK_BUFFER_SIZE
    && EntriesOnly(w, Swept(buffer, p, w))
    && ReversePass(Legs(Swept(buffer, p, w)), k, 0) == goal
  }

  /** With block `i` of the window next, the rest of the forward pass leads to `goal`. */
  ghost predicate Forwarding(buffer: seq<PlanBlock>, p: nat, w: seq<PlanBlock>, i: nat, q: nat, goal: (seq<Leg>, nat)) {
    && |buffer| == BLOCK_BUFFER_SIZE && p < BLOCK_BUFFER_SIZE && 1 <= i <= |w| <= BLOCK_BUFFER_SIZE && q < i
    && EntriesOnly(w, Window(buffer, p, |w|))
    && ForwardPass(Legs(Window(buffer, p, |w|)), i, q) == goal
  }

  lemma SweptUpdate(buffer: seq<PlanBlock>, p: nat, w: seq<PlanBlock>, k: nat, entry: real)
    requires |buffer| == BLOCK_BUFFER_SIZE && p < BLOCK_BUFFER_SIZE && 1 <= k < |w| <= BLOCK_BUFFER_SIZE
    requires EntriesOnly(w, Swept(buffer, p, w))
    ensures var i := Ring(p, k);
            var buffer' := buffer[i := buffer[i].(entrySqr := entry)];
            && Swept(buffer, p, w)[k] == buffer[i]
            && EntriesOnly(w, Swept(buffer', p, w))
            && Legs(Swept(buffer', p, w)) == Legs(Swept(buffer, p, w))[k := LegOf(buffer[i]).(entry := entry)]
            && Window(buffer', p, |w|)[0] == Window(buffer, p, |w|)[0]
  {
    var i := Ring(p, k);
    var x := Swept(buffer, p, w);
    var b := buffer[i].(entrySqr := entry);
    WindowUpdate(buffer, p, |w|, k, b);
    assert Swept(buffer[i := b], p, w) == x[k := b];
    LegsUpdate(x, k, entry);
  }

  lemma SweptHead(buffer: seq<PlanBlock>, p: nat, w: seq<PlanBlock>, b: PlanBlock)
    requires |buffer| == BLOCK_BUFFER_SIZE && p < BLOCK_BUFFER_SIZE && 1 <= |w| <= BLOCK_BUFFER_SIZE
    ensures Swept(buffer[p := b], p, w) == Swept(buffer, p, w)
  {
    WindowUpdate(buffer, p, |w|, 0, b);
  }

  lemma ReverseBegins(buffer: seq<PlanBlock>, p: nat, w: seq<PlanBlock>)
    requires |buffer| == BLOCK_BUFFER_SIZE && p < BLOCK_BUFFER_SIZE && 2 <= |w| <= BLOCK_BUFFER_SIZE
    requires w == Swept(buffer, p, w)
    ensures var i := Ring(p, |w| - 1);
            var b := buffer[i];
            var entry := Min(b.maxEntrySqr, Reach(b));
            var buffer' := buffer[i := b.(entrySqr := entry)];
            && Reversing(buffer', p, w, |w| - 2, ReversePass(BrakeLast(Legs(w)), |w| - 2, 0))
            && Window(buffer', p, |w|)[0] == Window(buffer, p, |w|)[0]
  {
    var b := buffer[Ring(p, |w| - 1)];
    var entry := Min(b.maxEntrySqr, Reach(b));
    SweptUpdate(buffer, p, w, |w| - 1, entry);
    assert BrakeLast(Legs(w)) == Legs(w)[|w| - 1 := LegOf(b).(entry := entry)];
  }

  /** One turn of the reverse loop. */
  lemma ReverseTurn(buffer: seq<PlanBlock>, p: nat, w: seq<PlanBlock>, k: nat, goal: seq<Leg>, entry: real)
    requires Reversing(buffer, p, w, k, goal) && k >= 1
    requires var c, next := buffer[Ring(p, k)], buffer[Ring(p, k + 1)];
             entry == if c.entrySqr == c.maxEntrySqr then c.entrySqr
                      else Min(next.entrySqr + Reach(c), c.maxEntrySqr)
    ensures var i := Ring(p, k);
            var buffer' := buffer[i := buffer[i].(entrySqr := entry)];
            Reversing(buffer', p, w, k - 1, goal) && Window(buffer', p, |w|)[0] == Window(buffer, p, |w|)[0]
  {
    var x := Swept(buffer, p, w);
    SweptUpdate(buffer, p, w, k, entry);
    var legs := Legs(x);
    assert legs[k] == LegOf(buffer[Ring(p, k)]) && legs[k + 1].entry == buffer[Ring(p, k + 1)].entrySqr;
    assert ReverseStep(legs, k) == legs[k := LegOf(buffer[Ring(p, k)]).(entry := entry)];
  }

  lemma ReverseEnds(buffer: seq<PlanBlock>, p: nat, w: seq<PlanBlock>, goal: seq<Leg>)
    requires Reversing(buffer, p, w, 0, goal) && Window(buffer, p, |w|)[0] == w[0]
    ensures Window(buffer, p, |w|) == WithEntries(w, goal)
  {
    assert Swept(buffer, p, w) == Window(buffer, p, |w|);
    EntriesAreLegs(w, Window(buffer, p, |w|));
  }

  lemma ForwardBegins(buffer: seq<PlanBlock>, p: nat, w: seq<PlanBlock>, legs: seq<Leg>)
    requires |buffer| == BLOCK_BUFFER_SIZE && p < BLOCK_BUFFER_SIZE && 1 <= |w| <= BLOCK_BUFFER_SIZE
    requires EntriesOnly(w, Window(buffer, p, |w|)) && |legs| == |w| && SameLimits(legs, Legs(w))
    requires Window(buffer, p, |w|) == WithEntries(w, legs)
    ensures Forwarding(buffer, p, w, 1, 0, ForwardPass(legs, 1, 0))
  {
    LegsOfEntries(w, legs);
  }

  /** One turn of the forward loop. */
  lemma ForwardTurn(buffer: seq<PlanBlock>, p: nat, w: seq<PlanBlock>, i: nat, q: nat, goal: (seq<Leg>, nat), next': PlanBlock)
    requires Forwarding(buffer, p, w, i, q, goal) && i < |w|
    requires var c, next := buffer[Ring(p, i - 1)], buffer[Ring(p, i)];
             next' == if c.entrySqr < next.entrySqr && c.entrySqr + Reach(c) < next.entrySqr
                      then next.(entrySqr := c.entrySqr + Reach(c)) else next
    ensures var q' := if next' != buffer[Ring(p, i)] || next'.entrySqr == next'.maxEntrySqr then i else q;
            Forwarding(buffer[Ring(p, i) := next'], p, w, i + 1, q', goal)
  {
    var x := Window(buffer, p, |w|);
    var legs := Legs(x);
    assert legs[i] == LegOf(buffer[Ring(p, i)]) && legs[i - 1] == LegOf(buffer[Ring(p, i - 1)]);
    WindowUpdate(buffer, p, |w|, i, next');
    assert x[i := next'] == x[i := x[i].(entrySqr := next'.entrySqr)];
    LegsUpdate(x, i, next'.entrySqr);
    assert legs[i].(entry := next'.entrySqr) == ForwardStep(legs, i);
  }

  lemma ForwardEnds(buffer: seq<PlanBlock>, p: nat, w: seq<PlanBlock>, q: nat, goal: (seq<Leg>, nat))
    requires Forwarding(buffer, p, w, |w|, q, goal)
    ensures Window(buffer, p, |w|) == WithEntries(w, goal.0) && q == goal.1
  {
    EntriesAreLegs(w, Window(buffer, p, |w|));
  }

  // ---------------------------------------------------------------------------
  // Replanning a window is replanning the queue
  // ---------------------------------------------------------------------------

  lemma {:induction false} ReverseSuffix(legs: seq<Leg>, i: nat, p: nat)
    requires p <= i && i + 1 < |legs|
    ensures ReversePass(legs, i, p) == legs[..p] + ReversePass(legs[p..], i - p, 0)
    decreases i
  {
    if i > p {
      assert ReverseStep(legs, i) == legs[..p] + ReverseStep(legs[p..], i - p);
      ReverseSuffix(ReverseStep(legs, i), i - 1, p);
    }
  }

  lemma {:induction false} ForwardSuffix(legs: seq<Leg>, i: nat, planned: nat, p: nat)
    requires p < i <= |legs| && p <= planned < i
    ensures var r := ForwardPass(legs[p..], i - p, planned - p);
            ForwardPass(legs, i, planned) == (legs[..p] + r.0, p + r.1)
    decreases |legs| - i
  {
    if i == |legs| {
      assert legs == legs[..p] + legs[p..];
    } else {
      var q := if LocksAt(legs, i) then i else planned;
      var legs' := legs[i := ForwardStep(legs, i)];
      assert ForwardStep(legs[p..], i - p) == ForwardStep(legs, i);
      assert legs'[p..] == legs[p..][i - p := ForwardStep(legs[p..], i - p)];
      assert legs'[..p] == legs[..p];
      ForwardSuffix(legs', i + 1, q, p);
      assert ForwardPass(legs[p..], i - p, planned - p) == ForwardPass(legs'[p..], i + 1 - p, q - p);
    }
  }

  lemma ReplanLegsSuffix(legs: seq<Leg>, p: nat)
    requires p < |legs|
    ensures var r := Replan(legs[p..], 0);
            Replan(legs, p) == (legs[..p] + r.0, p + r.1)
  {
    if p + 1 < |legs| {
      assert BrakeLast(legs)[p..] == BrakeLast(legs[p..]) && BrakeLast(legs)[..p] == legs[..p];
      ReverseSuffix(BrakeLast(legs), |legs| - 2, p);
      var reversed := ReversePass(BrakeLast(legs), |legs| - 2, p);
      assert reversed[p..] == ReversePass(BrakeLast(legs[p..]), |legs| - p - 2, 0);
      assert reversed[..p] == legs[..p];
      ForwardSuffix(reversed, p + 1, p, p);
    } else {
      assert legs == legs[..p] + legs[p..];
    }
  }

  /** A replan from block `p` is a replan of the blocks from `p` on. */
  lemma ReplanSuffix(bs: seq<PlanBlock>, p: nat)
    requires p < |bs|
    ensures var r := ReplanBlocks(bs[p..], 0);
            ReplanBlocks(bs, p).0 == bs[..p] + r.0 && ReplanBlocks(bs, p).1 == p + r.1
  {
    ReplanLegsSuffix(Legs(bs), p);
    assert Legs(bs[p..]) == Legs(bs)[p..];
    var legs := Replan(Legs(bs), p).0;
    forall i: nat | i < |bs|
      ensures WithEntries(bs, legs)[i] == (bs[..p] + WithEntries(bs[p..], legs[p..]))[i]
    {
      if i < p { assert legs[i] == Legs(bs)[i]; }
    }
  }

  lemma {:induction false} ForwardEndsOnLast(legs: seq<Leg>, i: nat, planned: nat)
    requires 1 <= i < |legs| && planned < i
    requires WellFormed(legs) && legs[|legs| - 1].entry == legs[|legs| - 1].maxEntry == 0.0
    ensures var r := ForwardPass(legs, i, planned);
            r.1 == |legs| - 1 && r.0[|legs| - 1] == legs[|legs| - 1]
    decreases |legs| - i
  {
    var q := if LocksAt(legs, i) then i else planned;
    if i + 1 < |legs| {
      ForwardEndsOnLast(legs[i := ForwardStep(legs, i)], i + 1, q);
    }
  }

  /** A newest block that starts from rest becomes the planned block, whatever lies before it. */
  lemma RestBlockIsPlanned(w: seq<PlanBlock>)
    requires |w| >= 1 && (forall b | b in w :: NonNegative(b))
    requires w[|w| - 1].entrySqr == w[|w| - 1].maxEntrySqr == 0.0
    ensures ReplanBlocks(w, 0).1 == |w| - 1 && ReplanBlocks(w, 0).0[|w| - 1] == w[|w| - 1]
  {
    var legs := Legs(w);
    forall i | 0 <= i < |legs| ensures legs[i].entry >= 0.0 && legs[i].maxEntry >= 0.0 && legs[i].delta >= 0.0 {
      assert w[i] in w;
    }
    if |w| > 1 {
      assert BrakeLast(legs) == legs;
      ReversePassNonNegative(legs, |w| - 2, 0);
      ReversePassKeeps(legs, |w| - 2, 0, |w| - 1);
      ForwardEndsOnLast(ReversePass(legs, |w| - 2, 0), 1, 0);
    }
  }

  /** Blocks `tail..head` of the ring, made of the part a replan leaves alone and the part it plans. */
  lemma QueueOfWindows(buffer: seq<PlanBlock>, tail: nat, count: nat, p: nat)
    requires |buffer| == BLOCK_BUFFER_SIZE && tail < BLOCK_BUFFER_SIZE && p < count <= BLOCK_BUFFER_SIZE
    ensures Window(buffer, tail, count)
         == Window(buffer, Ring(tail, count), BLOCK_BUFFER_SIZE - (count - p))[BLOCK_BUFFER_SIZE - count..]
            + Window(buffer, Ring(tail, p), count - p)
  {
  }

  /** The queue with the tail's current speed handed back if the replan will start at it. */
  function HandedBack(bs: seq<PlanBlock>, p: nat, taken: bool, speed: real): (r: seq<PlanBlock>)
    ensures |r| == |bs|
  {
    if |bs| >= 2 && p == 0 && taken then bs[0 := bs[0].(entrySqr := speed)] else bs
  }

  lemma HandedBackReplans(bs: seq<PlanBlock>, p: nat, taken: bool, speed: real)
    requires p < |bs|
    ensures RecalculateQueue(bs, p, taken, speed) == ReplanBlocks(HandedBack(bs, p, taken, speed), p)
  {
    if p + 1 == |bs| {
      forall i: nat | i < |bs| ensures WithEntries(bs, Legs(bs))[i] == bs[i] {
        assert Legs(bs)[i] == LegOf(bs[i]);
      }
      assert WithEntries(bs, Legs(bs)) == bs;
    }
  }

  /** A replanned window and an untouched rest make a replanned queue. */
  lemma QueueReplanned(buffer: seq<PlanBlock>, buffer': seq<PlanBlock>, tail: nat, count: nat, p: nat,
                       bs: seq<PlanBlock>)
    requires |buffer| == |buffer'| == BLOCK_BUFFER_SIZE && tail < BLOCK_BUFFER_SIZE && p < count <= BLOCK_BUFFER_SIZE
    requires |bs| == count && bs[..p] == Window(buffer, tail, count)[..p]
    requires Window(buffer', Ring(tail, p), count - p) == ReplanBlocks(bs[p..], 0).0
    requires var rest := BLOCK_BUFFER_SIZE - (count - p);
             Window(buffer', Ring(tail, count), rest) == Window(buffer, Ring(tail, count), rest)
    ensures Window(buffer', tail, count) == ReplanBlocks(bs, p).0
    ensures ReplanBlocks(bs, p).1 == p + ReplanBlocks(bs[p..], 0).1
  {
    ReplanSuffix(bs, p);
    QueueOfWindows(buffer, tail, count, p);
    QueueOfWindows(buffer', tail, count, p);
    var rest := Window(buffer, Ring(tail, count), BLOCK_BUFFER_SIZE - (count - p))[BLOCK_BUFFER_SIZE - count..];
    assert |rest| == p;
    assert Window(buffer, tail, count)[..p] == rest;
  }

  lemma QueueRecalculated(buffer: seq<PlanBlock>, buffer': seq<PlanBlock>, tail: nat, count: nat, p: nat,
                          taken: bool, speed: real)
    requires |buffer| == |buffer'| == BLOCK_BUFFER_SIZE && tail < BLOCK_BUFFER_SIZE && p < count <= BLOCK_BUFFER_SIZE
    requires var bs := HandedBack(Window(buffer, tail, count), p, taken, speed);
             Window(buffer', Ring(tail, p), count - p) == ReplanBlocks(bs[p..], 0).0
    requires var rest := BLOCK_BUFFER_SIZE - (count - p);
             Window(buffer', Ring(tail, count), rest) == Window(buffer, Ring(tail, count), rest)
    ensures var bs := Window(buffer, tail, count);
            && Window(buffer', tail, count) == RecalculateQueue(bs, p, taken, speed).0
            && RecalculateQueue(bs, p, taken, speed).1
               == p + ReplanBlocks(HandedBack(bs, p, taken, speed)[p..], 0).1
  {
    var bs := Window(buffer, tail, count);
    HandedBackReplans(bs, p, taken, speed);
    QueueReplanned(buffer, buffer', tail, count, p, HandedBack(bs, p, taken, speed));
  }

  /** A window whose newest block starts from rest keeps that block and ends planned on it. */
  lemma WindowOfFirst(buffer: seq<PlanBlock>, buffer': seq<PlanBlock>, p: nat, n: nat)
    requires |buffer| == |buffer'| == BLOCK_BUFFER_SIZE && p < BLOCK_BUFFER_SIZE && 1 <= n <= BLOCK_BUFFER_SIZE
    requires forall i | 0 <= i < BLOCK_BUFFER_SIZE :: NonNegative(buffer[i])
    requires buffer[Ring(p, n - 1)].entrySqr == buffer[Ring(p, n - 1)].maxEntrySqr == 0.0
    requires Window(buffer', p, n) == ReplanBlocks(Window(buffer, p, n), 0).0
    ensures buffer'[Ring(p, n - 1)] == buffer[Ring(p, n - 1)]
    ensures ReplanBlocks(Window(buffer, p, n), 0).1 == n - 1
  {
    var w := Window(buffer, p, n);
    forall b | b in w ensures NonNegative(b) {
      var k: nat :| k < n && w[k] == b;
    }
    RestBlockIsPlanned(w);
    assert Window(buffer', p, n)[n - 1] == w[n - 1];
  }

  // ---------------------------------------------------------------------------
  // New limits on a queue
  // ---------------------------------------------------------------------------

  /** The queue `bs` has its new limits up to block `i`, where the nominal speed of the block before is `prev`. */
  ghost predicate Relimiting(bs: seq<PlanBlock>, current: seq<PlanBlock>, i: nat, o: Overrides, prev: real) {
    && (forall b | b in bs :: b.maxJunctionSqr >= 0.0)
    && |current| == |bs| && i <= |bs| && prev >= 0.0 && prev == LastNominal(bs[..i], o)
    && current[i..] == bs[i..]
    && Relimit(bs, o, SOME_LARGE_VALUE) == current[..i] + Relimit(bs[i..], o, prev)
  }

  lemma RelimitBegins(bs: seq<PlanBlock>, o: Overrides)
    requires forall b | b in bs :: b.maxJunctionSqr >= 0.0
    ensures Relimiting(bs, bs, 0, o, SOME_LARGE_VALUE)
  {
    assert bs[0..] == bs;
  }

  /** One block gets its new limit. */
  lemma RelimitTurn(bs: seq<PlanBlock>, current: seq<PlanBlock>, i: nat, o: Overrides, prev: real)
    requires Relimiting(bs, current, i, o, prev) && i < |bs|
    ensures current[i] == bs[i] && bs[i].maxJunctionSqr >= 0.0
    ensures var nominal := NominalSpeed(bs[i], o);
            var b := bs[i].(maxEntrySqr := MaxEntrySqr(bs[i], nominal, prev));
            Relimiting(bs, current[i := b], i + 1, o, nominal)
  {
    assert bs[i] in bs;
    assert current[i] == current[i..][0] == bs[i..][0] == bs[i];
    var b := bs[i].(maxEntrySqr := MaxEntrySqr(bs[i], NominalSpeed(bs[i], o), prev));
    var current' := current[i := b];
    assert current'[i + 1..] == current[i..][1..] == bs[i..][1..] == bs[i + 1..];
    assert current'[..i + 1] == current[..i] + [b];
    assert bs[..i + 1][i] == bs[i];
  }

  lemma RelimitEnds(bs: seq<PlanBlock>, current: seq<PlanBlock>, o: Overrides, prev: real)
    requires Relimiting(bs, current, |bs|, o, prev)
    ensures current == Relimit(bs, o, SOME_LARGE_VALUE) && prev == LastNominal(bs, o)
  {
    assert current[..|bs|] == current && bs[|bs|..] == [] && bs[..|bs|] == bs;
  }
}
