/**
 The planner in its own form: a ring of blocks with tail, head and planned indices, updated in
 place. Each method is proved against the queue functions of Blocks.
 */
module PlannerRing {
  import opened Axes
  import opened Blocks
  import opened PlannerTheory
  import opened RingWindow

  const NULL := -1

  const ZeroLine := LineData(0.0, false, false, false, false)
  const ZeroBlock := PlanBlock(Vec(0, 0, 0), 0, Vec(false, false, false), ZeroLine, 0.0, 0.0, 0.0, 0.0, 0.0, 0.0, 0.0)

  /** The step generator's side of planner_recalculate: which block it has taken, and how fast it moves. */
  class StepLink {
    var plBlock: int
    var recalculate: bool
    var currentSqr: real

    constructor ()
      ensures plBlock == NULL && !recalculate && currentSqr == 0.0
    {
      plBlock, recalculate, currentSqr := NULL, false, 0.0;
    }
  }

  class Planner {
    const blockBuffer: array<PlanBlock>
    const link: StepLink
    var blockBufferTail: nat
    var blockBufferHead: nat
    var nextBufferHead: nat
    var blockBufferPlanned: nat
    var position: Vec<int>
    var previousNominal: real

    constructor (link: StepLink)
      requires link.plBlock == NULL && link.currentSqr >= 0.0
      ensures Valid() && Count() == 0 && this.link == link && fresh(blockBuffer)
      ensures position == Vec(0, 0, 0) && previousNominal == 0.0
    {
      this.link := link;
      blockBuffer := new PlanBlock[BLOCK_BUFFER_SIZE](_ => ZeroBlock);
      blockBufferTail, blockBufferHead, nextBufferHead, blockBufferPlanned := 0, 0, 1, 0;
      position, previousNominal := Vec(0, 0, 0), 0.0;
    }

    ghost predicate Indexed()
      reads this, blockBuffer, link
    {
      && blockBuffer.Length == BLOCK_BUFFER_SIZE
      && blockBufferTail < BLOCK_BUFFER_SIZE && blockBufferHead < BLOCK_BUFFER_SIZE
      && blockBufferPlanned < BLOCK_BUFFER_SIZE && nextBufferHead == NextIndex(blockBufferHead)
      && link.currentSqr >= 0.0
      && (link.plBlock == NULL || (link.plBlock == blockBufferTail && blockBufferHead != blockBufferTail))
      && (forall i | 0 <= i < BLOCK_BUFFER_SIZE :: NonNegative(blockBuffer[i]))
    }

    /** Blocks in the ring. */
    function Count(): (n: nat)
      reads this
      requires blockBufferTail < BLOCK_BUFFER_SIZE && blockBufferHead < BLOCK_BUFFER_SIZE
    {
      Distance(blockBufferTail, blockBufferHead)
    }

    /**
     The planned index stands on a queued block. In an empty ring it may stand anywhere: a
     replan of an empty buffer walks the whole ring and can leave it on a stale block.
     */
    ghost predicate Valid()
      reads this, blockBuffer, link
    {
      Indexed() && (Count() > 0 ==> Distance(blockBufferTail, blockBufferPlanned) < Count())
    }

    ghost function Blocks(): (bs: seq<PlanBlock>)
      reads this, blockBuffer, link
      requires Indexed()
    {
      Window(blockBuffer[..], blockBufferTail, Count())
    }

    ghost function Planned(): nat
      reads this, blockBuffer, link
      requires Indexed()
    {
      if Count() == 0 then 0 else Distance(blockBufferTail, blockBufferPlanned)
    }

    /** How many blocks, stale ones included, lie between the planned index and the head. */
    ghost function Span(): (n: nat)
      reads this, blockBuffer, link
      requires Indexed()
      ensures 1 <= n <= BLOCK_BUFFER_SIZE && Ring(blockBufferPlanned, n) == blockBufferHead
    {
      if blockBufferPlanned == blockBufferHead then BLOCK_BUFFER_SIZE
      else Distance(blockBufferPlanned, blockBufferHead)
    }

    ghost predicate TailAtEdge()
      reads this, blockBuffer, link
      requires Indexed()
    {
      blockBufferPlanned == blockBufferTail || Distance(blockBufferPlanned, blockBufferTail) + 1 >= Span()
    }

    /** st_update_plan_block_parameters: hands the taken block back with the current speed. */
    method StUpdatePlanBlockParameters()
      requires Indexed()
      modifies link, blockBuffer
      ensures Indexed()
      ensures link.plBlock == NULL && link.currentSqr == old(link.currentSqr)
      ensures link.recalculate == (old(link.recalculate) || old(link.plBlock) != NULL)
      ensures blockBuffer[..] == (if old(link.plBlock) == NULL then old(blockBuffer[..])
                                  else old(blockBuffer[..])[blockBufferTail :=
                                         old(blockBuffer[blockBufferTail]).(entrySqr := link.currentSqr)])
    {
      if link.plBlock != NULL {
        link.recalculate := true;
        blockBuffer[link.plBlock] := blockBuffer[link.plBlock].(entrySqr := link.currentSqr);
        link.plBlock := NULL;
      }
    }

    /** The window from the planned index to the head, with the tail's speed handed back if it is in it. */
    ghost function Handed(): (w: seq<PlanBlock>)
      reads this, blockBuffer, link
      requires Indexed()
      ensures |w| == Span()
    {
      var w := Window(blockBuffer[..], blockBufferPlanned, Span());
      if Span() >= 2 && blockBufferPlanned == blockBufferTail && link.plBlock != NULL
      then w[0 := w[0].(entrySqr := link.currentSqr)] else w
    }

    /** Did the replan hand the taken tail back? */
    ghost predicate HandsBack()
      reads this, blockBuffer, link
      requires Indexed()
    {
      Span() >= 2 && blockBufferPlanned == blockBufferTail && link.plBlock != NULL
    }

    /** What the step generator's link looks like after a replan that did or did not reach the tail. */
    twostate predicate LinkAfter(handed: bool)
      reads link
    {
      && link.plBlock == (if handed then NULL else old(link.plBlock))
      && link.recalculate == (old(link.recalculate) || handed)
      && link.currentSqr == old(link.currentSqr)
    }

    /** The entry speed that block `current` gets in the reverse pass, entering block `next` after it. */
    ghost function Braked(current: nat, next: nat): real
      reads this, blockBuffer, link
      requires Indexed() && current < BLOCK_BUFFER_SIZE && next < BLOCK_BUFFER_SIZE
    {
      var c := blockBuffer[current];
      if c.entrySqr == c.maxEntrySqr then c.entrySqr
      else Min(blockBuffer[next].entrySqr + Reach(c), c.maxEntrySqr)
    }

    /** One block of the reverse pass. A block already at its limit is left alone. */
    method BrakeBlock(current: nat, next: nat)
      requires Indexed() && current < BLOCK_BUFFER_SIZE && next < BLOCK_BUFFER_SIZE
      modifies blockBuffer
      ensures Indexed()
      ensures blockBuffer[..] == old(blockBuffer[..])[current := old(blockBuffer[current]).(entrySqr := old(Braked(current, next)))]
    {
      var block := blockBuffer[current];
      if block.entrySqr != block.maxEntrySqr {
        var entrySqr := blockBuffer[next].entrySqr + Reach(block);
        if entrySqr < block.maxEntrySqr {
          blockBuffer[current] := block.(entrySqr := entrySqr);
        } else {
          blockBuffer[current] := block.(entrySqr := block.maxEntrySqr);
        }
      }
    }

    /** The newest block must be able to stop at its end. */
    method BrakeNewest(current: nat)
      requires Indexed() && current < BLOCK_BUFFER_SIZE
      modifies blockBuffer
      ensures Indexed()
      ensures var b := old(blockBuffer[current]);
              blockBuffer[..] == old(blockBuffer[..])[current := b.(entrySqr := Min(b.maxEntrySqr, Reach(b)))]
    {
      var block := blockBuffer[current];
      blockBuffer[current] := block.(entrySqr := Min(block.maxEntrySqr, Reach(block)));
    }

    /** The rest of the ring: what no replan may touch. */
    ghost function Rest(): seq<PlanBlock>
      reads this, blockBuffer, link
      requires Indexed()
    {
      Window(blockBuffer[..], blockBufferHead, BLOCK_BUFFER_SIZE - Span())
    }

    lemma RestUpdate(k: nat, b: PlanBlock)
      requires Indexed() && k < Span()
      ensures Window(blockBuffer[..][Ring(blockBufferPlanned, k) := b], blockBufferHead, BLOCK_BUFFER_SIZE - Span()) == Rest()
    {
      WindowOutside(blockBuffer[..], blockBufferHead, BLOCK_BUFFER_SIZE - Span(), Ring(blockBufferPlanned, k), b);
    }

    /** Where the reverse pass over `w` stands when block `k` of the window is next. */
    ghost predicate ReverseState(w: seq<PlanBlock>, k: nat, goal: seq<Leg>, first: PlanBlock)
      reads this, blockBuffer, link
    {
      && Indexed() && TailAtEdge() && |w| == Span()
      && Reversing(blockBuffer[..], blockBufferPlanned, w, k, goal)
      && blockBuffer[blockBufferPlanned] == first
    }

    /** Hands the tail back when the reverse pass is about to reach it. */
    method ReachTail(blockIndex: nat, ghost w: seq<PlanBlock>, ghost k: nat, ghost goal: seq<Leg>, ghost first: PlanBlock, ghost j: nat)
      requires ReverseState(w, k, goal, first) && j + 2 <= Span() && blockIndex == Ring(blockBufferPlanned, j)
      modifies blockBuffer, link
      ensures var handed := blockIndex == blockBufferPlanned == blockBufferTail && old(link.plBlock) != NULL;
              && ReverseState(w, k, goal, if handed then first.(entrySqr := link.currentSqr) else first)
              && LinkAfter(handed)
      ensures Rest() == old(Rest())
      ensures forall j: nat {:trigger Ring(blockBufferPlanned, j)} | 1 <= j < Span() ::
                blockBuffer[Ring(blockBufferPlanned, j)] == old(blockBuffer[Ring(blockBufferPlanned, j)])
    {
      if blockIndex == blockBufferTail {
        SweptHead(blockBuffer[..], blockBufferPlanned, w, first.(entrySqr := link.currentSqr));
        RestUpdate(0, first.(entrySqr := link.currentSqr));
        StUpdatePlanBlockParameters();
      }
    }

    /** One turn of the reverse loop. */
    method BrakeTurn(current: nat, next: nat, ghost w: seq<PlanBlock>, ghost k: nat, ghost goal: seq<Leg>, ghost first: PlanBlock)
      requires ReverseState(w, k, goal, first) && k >= 1
      requires current == Ring(blockBufferPlanned, k) && next == Ring(blockBufferPlanned, k + 1)
      modifies blockBuffer
      ensures ReverseState(w, k - 1, goal, first)
      ensures Rest() == old(Rest())
    {
      ReverseTurn(blockBuffer[..], blockBufferPlanned, w, k, goal, Braked(current, next));
      RestUpdate(k, blockBuffer[current].(entrySqr := Braked(current, next)));
      BrakeBlock(current, next);
    }

    ghost function HandedFirst(): PlanBlock
      reads this, blockBuffer, link
      requires Indexed()
    {
      var first := blockBuffer[blockBufferPlanned];
      if HandsBack() then first.(entrySqr := link.currentSqr) else first
    }

    lemma HandedIsSwept()
      requires Indexed()
      ensures Handed() == Swept(blockBuffer[..], blockBufferPlanned, Handed())
      ensures Handed()[0] == HandedFirst()
    {
    }

    /** With one block to plan there is nothing to do. */
    lemma HandedAlone()
      requires Indexed() && Span() == 1
      ensures Handed() == Window(blockBuffer[..], blockBufferPlanned, 1) == ReplanBlocks(Handed(), 0).0
      ensures ReplanBlocks(Handed(), 0).1 == 0
    {
      var w := Handed();
      assert Legs(w)[0] == LegOf(w[0]);
    }

    /** The newest block, and the stage for the rest of the reverse pass. */
    method BeginReverse(last: nat, ghost w: seq<PlanBlock>)
      requires Indexed() && TailAtEdge() && Span() >= 2 && last == Ring(blockBufferPlanned, Span() - 1)
      requires |w| == Span() && w == Swept(blockBuffer[..], blockBufferPlanned, w)
      modifies blockBuffer
      ensures ReverseState(w, |w| - 2, ReversePass(BrakeLast(Legs(w)), |w| - 2, 0), old(blockBuffer[blockBufferPlanned]))
      ensures Rest() == old(Rest())
    {
      ReverseBegins(blockBuffer[..], blockBufferPlanned, w);
      var b := blockBuffer[last];
      RestUpdate(Span() - 1, b.(entrySqr := Min(b.maxEntrySqr, Reach(b))));
      BrakeNewest(last);
    }

    /** The reverse loop about to turn to block `k` of the window, and the step generator's link then. */
    ghost predicate InReverse(w: seq<PlanBlock>, k: nat, goal: seq<Leg>, first: PlanBlock, taken: int, recalculate: bool, speed: real)
      reads this, blockBuffer, link
    {
      var handed := k == 0 && blockBufferPlanned == blockBufferTail && taken != NULL;
      && ReverseState(w, k, goal, if handed then first.(entrySqr := speed) else first)
      && link.plBlock == (if handed then NULL else taken)
      && link.recalculate == (recalculate || handed)
      && link.currentSqr == speed
    }

    /** One turn of the reverse loop. */
    method ReverseLoopTurn(next: nat, current: nat, ghost w: seq<PlanBlock>, ghost k: nat, ghost goal: seq<Leg>, ghost first: PlanBlock)
      returns (blockIndex: nat)
      requires ReverseState(w, k, goal, first) && k >= 1
      requires current == Ring(blockBufferPlanned, k) && next == Ring(blockBufferPlanned, k + 1)
      modifies blockBuffer, link
      ensures InReverse(w, k - 1, goal, first, old(link.plBlock), old(link.recalculate), old(link.currentSqr))
      ensures blockIndex == Ring(blockBufferPlanned, k - 1) && Rest() == old(Rest())
    {
      blockIndex := PrevIndex(current);
      assert blockIndex == Ring(blockBufferPlanned, k - 1);
      ReachTail(blockIndex, w, k, goal, first, k - 1);
      BrakeTurn(current, next, w, k, goal, blockBuffer[blockBufferPlanned]);
    }

    /** The reverse loop of planner_recalculate. */
    method ReverseLoop(last: nat, ghost w: seq<PlanBlock>, ghost goal: seq<Leg>)
      requires Indexed() && 3 <= |w| == Span() && last == Ring(blockBufferPlanned, |w| - 1)
      requires ReverseState(w, |w| - 2, goal, blockBuffer[blockBufferPlanned])
      modifies blockBuffer, link
      ensures InReverse(w, 0, goal, old(blockBuffer[blockBufferPlanned]),
                        old(link.plBlock), old(link.recalculate), old(link.currentSqr))
      ensures Rest() == old(Rest())
    {
      ghost var first, rest := blockBuffer[blockBufferPlanned], Rest();
      ghost var taken, recalculate, speed := link.plBlock, link.recalculate, link.currentSqr;
      ghost var k: nat := |w| - 2;
      var current := last;
      var blockIndex := PrevIndex(last);
      while blockIndex != blockBufferPlanned
        invariant k <= |w| - 2 && blockIndex == Ring(blockBufferPlanned, k) && current == Ring(blockBufferPlanned, k + 1)
        invariant InReverse(w, k, goal, first, taken, recalculate, speed)
        invariant Rest() == rest
        decreases k
      {
        var next := current;
        current := blockIndex;
        assert k >= 1;
        blockIndex := ReverseLoopTurn(next, current, w, k, goal, first);
        k := k - 1;
      }
      assert k == 0;
    }

    /** The reverse pass after its newest block. */
    method ReverseRest(last: nat, ghost w: seq<PlanBlock>, ghost goal: seq<Leg>)
      requires Indexed() && 2 <= |w| == Span() && last == Ring(blockBufferPlanned, |w| - 1)
      requires ReverseState(w, |w| - 2, goal, blockBuffer[blockBufferPlanned])
      modifies blockBuffer, link
      ensures InReverse(w, 0, goal, old(blockBuffer[blockBufferPlanned]),
                        old(link.plBlock), old(link.recalculate), old(link.currentSqr))
      ensures Rest() == old(Rest())
    {
      var blockIndex := PrevIndex(last);
      if blockIndex == blockBufferPlanned {
        ReachTail(blockIndex, w, 0, goal, blockBuffer[blockBufferPlanned], 0);
      } else {
        ReverseLoop(last, w, goal);
      }
    }

    /** The reverse pass of planner_recalculate over the window `w`; `last` is the newest block. */
    method ReverseSweep(last: nat, ghost w: seq<PlanBlock>)
      requires Indexed() && TailAtEdge() && Span() >= 2 && last == PrevIndex(blockBufferHead)
      requires |w| == Span() && w == Swept(blockBuffer[..], blockBufferPlanned, w) && w[0] == HandedFirst()
      modifies blockBuffer, link
      ensures Indexed()
      ensures Window(blockBuffer[..], blockBufferPlanned, Span())
           == WithEntries(w, ReversePass(BrakeLast(Legs(w)), |w| - 2, 0))
      ensures Rest() == old(Rest()) && LinkAfter(old(HandsBack()))
    {
      ghost var goal := ReversePass(BrakeLast(Legs(w)), |w| - 2, 0);
      BeginReverse(last, w);
      ReverseRest(last, w, goal);
      ReverseEnds(blockBuffer[..], blockBufferPlanned, w, goal);
    }

    /** Where the forward pass over the window of `w` from index `p` stands when block `i` of it is next. */
    ghost predicate ForwardState(p: nat, w: seq<PlanBlock>, i: nat, goal: (seq<Leg>, nat), rest: seq<PlanBlock>)
      reads this, blockBuffer, link
    {
      && Indexed() && p < BLOCK_BUFFER_SIZE && 1 <= i <= |w| <= BLOCK_BUFFER_SIZE
      && Ring(p, |w|) == blockBufferHead
      && Distance(p, blockBufferPlanned) < i
      && Forwarding(blockBuffer[..], p, w, i, Distance(p, blockBufferPlanned), goal)
      && Window(blockBuffer[..], blockBufferHead, BLOCK_BUFFER_SIZE - |w|) == rest
    }

    /** What the forward pass makes of block `next` when it is entered from block `current`. */
    ghost function Entered(current: nat, next: nat): PlanBlock
      reads this, blockBuffer, link
      requires Indexed() && current < BLOCK_BUFFER_SIZE && next < BLOCK_BUFFER_SIZE
    {
      var c, n := blockBuffer[current], blockBuffer[next];
      if c.entrySqr < n.entrySqr && c.entrySqr + Reach(c) < n.entrySqr then n.(entrySqr := c.entrySqr + Reach(c)) else n
    }

    /** One block of the forward pass: entering block `blockIndex` from block `current`. */
    method AccelerateBlock(current: nat, blockIndex: nat)
      requires Indexed() && current < BLOCK_BUFFER_SIZE && blockIndex < BLOCK_BUFFER_SIZE
      modifies this`blockBufferPlanned, blockBuffer
      ensures Indexed()
      ensures var next := old(Entered(current, blockIndex));
              && blockBuffer[..] == old(blockBuffer[..])[blockIndex := next]
              && blockBufferPlanned == (if next != old(blockBuffer[blockIndex]) || next.entrySqr == next.maxEntrySqr
                                        then blockIndex else old(blockBufferPlanned))
    {
      var c, next := blockBuffer[current], blockBuffer[blockIndex];
      if c.entrySqr < next.entrySqr {
        var entrySqr := c.entrySqr + Reach(c);
        if entrySqr < next.entrySqr {
          next := next.(entrySqr := entrySqr);
          blockBuffer[blockIndex] := next;
          blockBufferPlanned := blockIndex;
        }
      }
      if next.entrySqr == next.maxEntrySqr { blockBufferPlanned := blockIndex; }
    }

    /** One turn of the forward loop. */
    method AccelerateTurn(current: nat, blockIndex: nat, ghost p: nat, ghost w: seq<PlanBlock>, ghost i: nat,
                          ghost goal: (seq<Leg>, nat), ghost rest: seq<PlanBlock>)
      requires ForwardState(p, w, i, goal, rest) && i < |w|
      requires current == Ring(p, i - 1) && blockIndex == Ring(p, i)
      modifies this`blockBufferPlanned, blockBuffer
      ensures ForwardState(p, w, i + 1, goal, rest)
    {
      ghost var next := Entered(current, blockIndex);
      ForwardTurn(blockBuffer[..], p, w, i, Distance(p, blockBufferPlanned), goal, next);
      WindowOutside(blockBuffer[..], blockBufferHead, BLOCK_BUFFER_SIZE - |w|, blockIndex, next);
      AccelerateBlock(current, blockIndex);
    }

    /** The forward pass of planner_recalculate, from the planned index on. */
    method ForwardSweep(ghost w: seq<PlanBlock>, ghost goal: (seq<Leg>, nat), ghost rest: seq<PlanBlock>)
      requires ForwardState(blockBufferPlanned, w, 1, goal, rest)
      modifies this`blockBufferPlanned, blockBuffer
      ensures ForwardState(old(blockBufferPlanned), w, |w|, goal, rest)
    {
      ghost var p := blockBufferPlanned;
      ghost var i: nat := 1;
      var current := blockBufferPlanned;
      var blockIndex := NextIndex(blockBufferPlanned);
      while blockIndex != blockBufferHead
        invariant 1 <= i <= |w| && blockIndex == Ring(p, i) && current == Ring(p, i - 1)
        invariant ForwardState(p, w, i, goal, rest)
        decreases |w| - i
      {
        AccelerateTurn(current, blockIndex, p, w, i, goal, rest);
        current := blockIndex;
        blockIndex := NextIndex(blockIndex);
        i := i + 1;
      }
    }

    lemma BeginForward(w: seq<PlanBlock>, legs: seq<Leg>)
      requires Indexed() && |w| == Span() == |legs|
      requires SameLimits(legs, Legs(w)) && Window(blockBuffer[..], blockBufferPlanned, |w|) == WithEntries(w, legs)
      ensures ForwardState(blockBufferPlanned, w, 1, ForwardPass(legs, 1, 0), Rest())
    {
      ForwardBegins(blockBuffer[..], blockBufferPlanned, w, legs);
    }

    lemma FinishForward(p: nat, w: seq<PlanBlock>, goal: (seq<Leg>, nat), rest: seq<PlanBlock>)
      requires ForwardState(p, w, |w|, goal, rest)
      ensures |goal.0| == |w| && Window(blockBuffer[..], p, |w|) == WithEntries(w, goal.0)
      ensures goal.1 < |w| && blockBufferPlanned == Ring(p, goal.1)
      ensures Window(blockBuffer[..], blockBufferHead, BLOCK_BUFFER_SIZE - |w|) == rest
    {
      ForwardEnds(blockBuffer[..], p, w, Distance(p, blockBufferPlanned), goal);
    }

    /** Both passes of planner_recalculate over the window `w`. */
    method PlanWindow(last: nat, ghost w: seq<PlanBlock>)
      requires Indexed() && TailAtEdge() && Span() >= 2 && last == PrevIndex(blockBufferHead)
      requires |w| == Span() && w == Swept(blockBuffer[..], blockBufferPlanned, w) && w[0] == HandedFirst()
      modifies this`blockBufferPlanned, blockBuffer, link
      ensures Indexed() && LinkAfter(old(HandsBack()))
      ensures var p, r := old(blockBufferPlanned), ReplanBlocks(w, 0);
              && Window(blockBuffer[..], p, |w|) == r.0
              && blockBufferPlanned == Ring(p, r.1)
      ensures Window(blockBuffer[..], blockBufferHead, BLOCK_BUFFER_SIZE - |w|) == old(Rest())
    {
      ghost var p, rest := blockBufferPlanned, Rest();
      ghost var legs := ReversePass(BrakeLast(Legs(w)), |w| - 2, 0);
      ReverseSweep(last, w);
      ReverseLimits(BrakeLast(Legs(w)), |w| - 2, 0);
      BeginForward(w, legs);
      ForwardSweep(w, ForwardPass(legs, 1, 0), rest);
      FinishForward(p, w, ForwardPass(legs, 1, 0), rest);
    }

    /** planner_recalculate, told on the window between the planned index and the head. */
    method PlannerRecalculate()
      requires Indexed() && TailAtEdge()
      modifies this`blockBufferPlanned, blockBuffer, link
      ensures Indexed() && LinkAfter(old(HandsBack()))
      ensures var p, r := old(blockBufferPlanned), ReplanBlocks(old(Handed()), 0);
              && Window(blockBuffer[..], p, old(Span())) == r.0
              && blockBufferPlanned == Ring(p, r.1)
      ensures Window(blockBuffer[..], blockBufferHead, BLOCK_BUFFER_SIZE - old(Span())) == old(Rest())
    {
      var blockIndex := PrevIndex(blockBufferHead);
      if blockIndex != blockBufferPlanned {
        HandedIsSwept();
        PlanWindow(blockIndex, Handed());
      } else {
        HandedAlone();
      }
    }

    lemma PlannedWindow()
      requires Valid() && Count() > 0
      ensures Span() == Count() - Planned() && blockBufferPlanned == Ring(blockBufferTail, Planned())
      ensures blockBufferHead == Ring(blockBufferTail, Count())
      ensures HandsBack() <==> Count() >= 2 && Planned() == 0 && link.plBlock != NULL
    {
    }

    lemma HandedIsQueue()
      requires Valid() && Count() > 0
      ensures Span() == Count() - Planned() && blockBufferPlanned == Ring(blockBufferTail, Planned())
      ensures blockBufferHead == Ring(blockBufferTail, Count())
      ensures HandsBack() <==> Count() >= 2 && Planned() == 0 && link.plBlock != NULL
      ensures Handed() == HandedBack(Blocks(), Planned(), link.plBlock != NULL, link.currentSqr)[Planned()..]
    {
      PlannedWindow();
      WindowSuffix(blockBuffer[..], blockBufferTail, Count(), Planned());
    }

    /** What a replan of the window from block `p` on has done to the queue `bs`. */
    lemma WindowIsQueue(buffer: seq<PlanBlock>, p: nat, q: nat, taken: bool, speed: real)
      requires Indexed() && |buffer| == BLOCK_BUFFER_SIZE && p < Count()
      requires var bs := HandedBack(Window(buffer, blockBufferTail, Count()), p, taken, speed);
               && Window(blockBuffer[..], Ring(blockBufferTail, p), Count() - p) == ReplanBlocks(bs[p..], 0).0
               && q == ReplanBlocks(bs[p..], 0).1
      requires var rest := BLOCK_BUFFER_SIZE - (Count() - p);
               Window(blockBuffer[..], blockBufferHead, rest) == Window(buffer, blockBufferHead, rest)
      requires blockBufferPlanned == Ring(Ring(blockBufferTail, p), q)
      ensures Valid()
      ensures var r := RecalculateQueue(Window(buffer, blockBufferTail, Count()), p, taken, speed);
              Blocks() == r.0 && Planned() == r.1
    {
      QueueRecalculated(buffer, blockBuffer[..], blockBufferTail, Count(), p, taken, speed);
    }

    /** planner_recalculate, told on the queue. */
    method Recalculate()
      requires Valid() && Count() > 0
      modifies this`blockBufferPlanned, blockBuffer, link
      ensures Valid()
      ensures var r := RecalculateQueue(old(Blocks()), old(Planned()), old(link.plBlock) != NULL, link.currentSqr);
              Blocks() == r.0 && Planned() == r.1
      ensures LinkAfter(Count() >= 2 && old(Planned()) == 0 && old(link.plBlock) != NULL)
    {
      ghost var buffer, p, q := blockBuffer[..], Planned(), ReplanBlocks(Handed(), 0).1;
      HandedIsQueue();
      PlannerRecalculate();
      WindowIsQueue(buffer, p, q, old(link.plBlock) != NULL, link.currentSqr);
    }

    // -------------------------------------------------------------------------
    // The queue operations
    // -------------------------------------------------------------------------

    /** plan_check_full_buffer. */
    function CheckFullBuffer(): (full: bool)
      reads this, blockBuffer, link
      requires Indexed()
      ensures full <==> Count() == 11
    {
      blockBufferTail == nextBufferHead
    }

    /** plan_get_block_buffer_available. */
    function GetBlockBufferAvailable(): (n: nat)
      reads this, blockBuffer, link
      requires Indexed()
      ensures n == 11 - Count()
    {
      if blockBufferHead >= blockBufferTail then BLOCK_BUFFER_SIZE - 1 - (blockBufferHead - blockBufferTail)
      else blockBufferTail - blockBufferHead - 1
    }

    /** plan_get_exec_block_exit_speed_sqr. */
    function GetExecBlockExitSpeedSqr(): (r: real)
      reads this, blockBuffer, link
      requires Indexed() && Count() > 0
      ensures r == ExitSqr(Blocks())
    {
      var blockIndex := NextIndex(blockBufferTail);
      if blockIndex == blockBufferHead then 0.0 else blockBuffer[blockIndex].entrySqr
    }

    /** plan_discard_current_block. The step generator has let go of the block. */
    method PlanDiscardCurrentBlock()
      requires Valid() && link.plBlock == NULL
      modifies this`blockBufferTail, this`blockBufferPlanned
      ensures Valid()
      ensures Blocks() == (if old(Blocks()) == [] then [] else old(Blocks())[1..])
      ensures Count() > 0 ==> Planned() == (if old(Planned()) == 0 then 0 else old(Planned()) - 1)
    {
      if blockBufferHead != blockBufferTail {
        var blockIndex := NextIndex(blockBufferTail);
        if blockBufferTail == blockBufferPlanned { blockBufferPlanned := blockIndex; }
        blockBufferTail := blockIndex;
      }
    }

    /** The queue after the step generator has handed its block back. */
    ghost function Returned(): (bs: seq<PlanBlock>)
      reads this, blockBuffer, link
      requires Indexed()
    {
      if link.plBlock != NULL then Blocks()[0 := Blocks()[0].(entrySqr := link.currentSqr)] else Blocks()
    }

    /** Replans from the tail. With an empty queue the pass runs over stale blocks only. */
    method RestartPlan()
      requires Valid() && link.plBlock == NULL
      modifies this`blockBufferPlanned, blockBuffer, link
      ensures Valid() && LinkAfter(false)
      ensures Count() > 0 ==>
                var r := RecalculateQueue(old(Blocks()), 0, false, link.currentSqr);
                Blocks() == r.0 && Planned() == r.1
    {
      blockBufferPlanned := blockBufferTail;
      if blockBufferHead == blockBufferTail {
        PlannerRecalculate();
      } else {
        assert Planned() == 0;
        Recalculate();
      }
    }

    /** plan_cycle_reinitialize. */
    method PlanCycleReinitialize()
      requires Valid()
      modifies this`blockBufferPlanned, blockBuffer, link
      ensures Valid() && LinkAfter(old(link.plBlock) != NULL)
      ensures Count() > 0 ==>
                var r := RecalculateQueue(old(Returned()), 0, false, link.currentSqr);
                Blocks() == r.0 && Planned() == r.1
    {
      if link.plBlock != NULL {
        WindowUpdate(blockBuffer[..], blockBufferTail, Count(), 0, blockBuffer[blockBufferTail].(entrySqr := link.currentSqr));
      }
      StUpdatePlanBlockParameters();
      RestartPlan();
    }

    /** The block in the head slot joins the queue. */
    method Admit()
      requires Valid() && !CheckFullBuffer()
      requires blockBuffer[blockBufferHead].entrySqr == 0.0
      requires Count() == 0 ==> blockBuffer[blockBufferHead].maxEntrySqr == 0.0
      modifies this`blockBufferHead, this`nextBufferHead, this`blockBufferPlanned, blockBuffer, link
      ensures Valid() && LinkAfter(old(Count() > 0 && Planned() == 0 && link.plBlock != NULL))
      ensures var bs := old(Blocks() + [blockBuffer[blockBufferHead]]);
              var r := RecalculateQueue(bs, old(Planned()), old(link.plBlock) != NULL, link.currentSqr);
              Blocks() == r.0 && Planned() == r.1
    {
      ghost var bs := Blocks() + [blockBuffer[blockBufferHead]];
      if blockBufferHead == blockBufferTail {
        blockBufferHead := nextBufferHead;
        nextBufferHead := NextIndex(blockBufferHead);
        PlanFirst();
      } else {
        blockBufferHead := nextBufferHead;
        nextBufferHead := NextIndex(blockBufferHead);
        assert Blocks() == bs;
        Recalculate();
      }
    }

    /** A block appended to an empty queue: whatever stale blocks the passes walk over, it ends planned. */
    method PlanFirst()
      requires Indexed() && Count() == 1 && link.plBlock == NULL
      requires blockBuffer[blockBufferTail].entrySqr == blockBuffer[blockBufferTail].maxEntrySqr == 0.0
      modifies this`blockBufferPlanned, blockBuffer, link
      ensures Valid() && LinkAfter(false)
      ensures Blocks() == old(Blocks()) && Planned() == 0
    {
      ghost var buffer, p, n := blockBuffer[..], blockBufferPlanned, Span();
      assert Handed() == Window(buffer, p, n) && blockBufferTail == Ring(p, n - 1);
      PlannerRecalculate();
      WindowOfFirst(buffer, blockBuffer[..], p, n);
    }

    /**
     plan_buffer_line. Results of the vector arithmetic on the line come in as `g`. A system
     motion goes into the free head slot and leaves the queue as it is.
     */
    method PlanBufferLine(target: Vec<int>, line: LineData, g: Geometry, o: Overrides, sysPosition: Vec<int>)
      returns (ok: bool)
      requires Valid() && Possible(g) && previousNominal >= 0.0
      requires line.systemMotion || !CheckFullBuffer()
      modifies this`blockBufferHead, this`nextBufferHead, this`blockBufferPlanned, this`position, this`previousNominal
      modifies blockBuffer, link
      ensures Valid() && previousNominal >= 0.0
      ensures ok <==> target != (if line.systemMotion then sysPosition else old(position))
      ensures !ok || line.systemMotion ==>
                && Blocks() == old(Blocks()) && Planned() == old(Planned()) && LinkAfter(false)
                && position == old(position) && previousNominal == old(previousNominal)
      ensures ok && line.systemMotion ==> blockBuffer[blockBufferHead] == NewBlock(sysPosition, target, line, g, true)
      ensures ok && !line.systemMotion ==>
                var b := PlannedBlock(old(position), target, line, g, old(Count()) == 0, o, old(previousNominal));
                var r := RecalculateQueue(old(Blocks()) + [b], old(Planned()), old(link.plBlock) != NULL, link.currentSqr);
                && Blocks() == r.0 && Planned() == r.1
                && LinkAfter(old(Count() > 0 && Planned() == 0 && link.plBlock != NULL))
                && position == target && previousNominal == NominalSpeed(b, o)
    {
      var from := if line.systemMotion then sysPosition else position;
      var atRest := blockBufferHead == blockBufferTail || line.systemMotion;
      var block := NewBlock(from, target, line, g, atRest);
      if block.stepEventCount == 0 {
        FillHead(ZeroBlock.(line := line));
        return false;
      }
      if !line.systemMotion {
        NominalIgnoresEntry(block, block.entrySqr, MaxEntrySqr(block, NominalSpeed(block, o), previousNominal), o);
        QueueBlock(block, target, o);
      } else {
        FillHead(block);
      }
      ok := true;
    }

    /** The part of plan_buffer_line that a system motion skips. */
    method QueueBlock(block: PlanBlock, target: Vec<int>, o: Overrides)
      requires Valid() && previousNominal >= 0.0 && !CheckFullBuffer()
      requires NonNegative(block) && block.entrySqr == 0.0 && (Count() == 0 ==> block.maxJunctionSqr == 0.0)
      modifies this`blockBufferHead, this`nextBufferHead, this`blockBufferPlanned, this`position, this`previousNominal
      modifies blockBuffer, link
      ensures Valid() && previousNominal >= 0.0
      ensures var b := block.(maxEntrySqr := MaxEntrySqr(block, NominalSpeed(block, o), old(previousNominal)));
              var r := RecalculateQueue(old(Blocks()) + [b], old(Planned()), old(link.plBlock) != NULL, link.currentSqr);
              Blocks() == r.0 && Planned() == r.1
      ensures LinkAfter(old(Count() > 0 && Planned() == 0 && link.plBlock != NULL))
      ensures position == target && previousNominal == NominalSpeed(block, o)
    {
      var nominal := NominalSpeed(block, o);
      FillHead(block.(maxEntrySqr := MaxEntrySqr(block, nominal, previousNominal)));
      previousNominal := nominal;
      position := target;
      Admit();
    }

    /** Writes the free slot at the head. */
    method FillHead(b: PlanBlock)
      requires Valid() && NonNegative(b)
      modifies blockBuffer
      ensures Valid() && Blocks() == old(Blocks()) && Planned() == old(Planned())
      ensures blockBuffer[blockBufferHead] == b
    {
      WindowOutside(blockBuffer[..], blockBufferTail, Count(), blockBufferHead, b);
      blockBuffer[blockBufferHead] := b;
    }

    /** plan_sync_position. */
    method PlanSyncPosition(sysPosition: Vec<int>)
      modifies this`position
      ensures position == sysPosition
    {
      position := sysPosition;
    }

    /** plan_reset, plan_reset_buffer included. */
    method PlanReset()
      requires Indexed()
      modifies this`blockBufferHead, this`nextBufferHead, this`blockBufferPlanned, this`blockBufferTail,
               this`position, this`previousNominal
      ensures blockBufferHead == blockBufferTail == blockBufferPlanned == 0 && nextBufferHead == 1
      ensures position == Vec(0, 0, 0) && previousNominal == 0.0
      ensures link.plBlock == NULL ==> Valid()
    {
      position, previousNominal := Vec(0, 0, 0), 0.0;
      blockBufferTail, blockBufferHead, nextBufferHead, blockBufferPlanned := 0, 0, 1, 0;
    }

    /** The loop of plan_update_velocity_profile_parameters. */
    method LimitQueue(o: Overrides) returns (prevNominal: real)
      requires Valid()
      modifies blockBuffer
      ensures Valid() && Planned() == old(Planned())
      ensures Blocks() == Relimit(old(Blocks()), o, SOME_LARGE_VALUE)
      ensures prevNominal == LastNominal(old(Blocks()), o)
    {
      ghost var bs := Blocks();
      ghost var i: nat := 0;
      var blockIndex := blockBufferTail;
      prevNominal := SOME_LARGE_VALUE;
      JunctionsAllowed();
      RelimitBegins(bs, o);
      while blockIndex != blockBufferHead
        invariant i <= Count() == |bs| && blockIndex == Ring(blockBufferTail, i)
        invariant Valid() && Relimiting(bs, Blocks(), i, o, prevNominal)
        decreases Count() - i
      {
        prevNominal := LimitBlock(blockIndex, prevNominal, o, bs, i);
        blockIndex := NextIndex(blockIndex);
        i := i + 1;
      }
      RelimitEnds(bs, Blocks(), o, prevNominal);
    }

    /** plan_update_velocity_profile_parameters. */
    method PlanUpdateVelocityProfileParameters(o: Overrides)
      requires Valid()
      modifies this`previousNominal, blockBuffer
      ensures Valid() && Planned() == old(Planned())
      ensures Blocks() == Relimit(old(Blocks()), o, SOME_LARGE_VALUE)
      ensures previousNominal == LastNominal(old(Blocks()), o)
    {
      previousNominal := LimitQueue(o);
    }

    lemma JunctionsAllowed()
      requires Indexed()
      ensures forall b | b in Blocks() :: b.maxJunctionSqr >= 0.0
    {
      var bs := Blocks();
      forall b | b in bs ensures b.maxJunctionSqr >= 0.0 {
        var k: nat :| k < |bs| && bs[k] == b;
      }
    }

    /** One turn of the loop over the queue's limits. */
    method LimitBlock(blockIndex: nat, prevNominal: real, o: Overrides, ghost bs: seq<PlanBlock>, ghost i: nat) returns (nominal: real)
      requires Valid() && Relimiting(bs, Blocks(), i, o, prevNominal) && i < Count() && blockIndex == Ring(blockBufferTail, i)
      modifies blockBuffer
      ensures Valid() && Relimiting(bs, Blocks(), i + 1, o, nominal)
    {
      var block := blockBuffer[blockIndex];
      nominal := NominalSpeed(block, o);
      RelimitTurn(bs, Blocks(), i, o, prevNominal);
      block := block.(maxEntrySqr := MaxEntrySqr(block, nominal, prevNominal));
      WindowUpdate(blockBuffer[..], blockBufferTail, Count(), i, block);
      blockBuffer[blockIndex] := block;
    }
  }
}
