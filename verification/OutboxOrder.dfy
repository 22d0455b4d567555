/** What decides the order of deliveries: a row that is not processed holds up every row above it. */
module OutboxOrder {
  import opened Outbox
  import opened OutboxDelivery

  // --- A row that cannot be delivered --------------------------------

  /** Row `r` is unprocessed, not being marked, and in every batch there is: the next rows to be delivered
      are those below it. */
  ghost predicate InFront(w: World, r: RowId) {
    Unprocessed(w.rows, r) && !AtMark(w, r) && (BatchOf(w.pc) == [] || r in BatchOf(w.pc))
  }

  /** What the log gained from `w` to `w'` lies below `r`, and what lay above `r` is as it was. */
  ghost predicate HeldUp(w: World, w': World, r: RowId) {
    && w.log <= w'.log
    && (forall i | |w.log| <= i < |w'.log| :: w'.log[i] < r)
    && (forall x | x in w.rows && r <= x :: x in w'.rows && w'.rows[x] == w.rows[x])
  }

  lemma BatchAbove(w: World, r: RowId)
    requires BatchInv(w) && InFront(w, r) && BatchOf(w.pc) != []
    ensures w.pc.batch[0] <= r
    ensures w.pc.Marking? ==> w.pc.batch[0] < r
  {
    var i :| 0 <= i < |w.pc.batch| && w.pc.batch[i] == r;
  }

  lemma DeliverHeldUp(w: World, r: RowId)
    requires BatchInv(w) && InFront(w, r) && Enabled(w, Deliver) && w.pc.batch[0] != r
    ensures InFront(Next(w, Deliver), r) && HeldUp(w, Next(w, Deliver), r)
  {
    BatchAbove(w, r);
  }

  lemma MarkHeldUp(w: World, r: RowId)
    requires BatchInv(w) && InFront(w, r) && Enabled(w, Mark)
    ensures InFront(Next(w, Mark), r) && HeldUp(w, Next(w, Mark), r)
  {
    BatchAbove(w, r);
    TailKept(w.pc.batch);
  }

  lemma OtherHeldUp(w: World, step: Step, r: RowId)
    requires InFront(w, r) && Enabled(w, step) && !step.Deliver? && !step.Mark?
    ensures InFront(Next(w, step), r) && HeldUp(w, Next(w, step), r)
  {
  }

  lemma NextHeldUp(w: World, step: Step, r: RowId)
    requires BatchInv(w) && InFront(w, r) && r !in Next(w, step).log[|w.log|..]
    requires w.log <= Next(w, step).log
    ensures InFront(Next(w, step), r) && HeldUp(w, Next(w, step), r)
  {
    if Enabled(w, step) {
      match step
      case Deliver =>
        assert Next(w, step).log[|w.log|] in Next(w, step).log[|w.log|..];
        DeliverHeldUp(w, r);
      case Mark => MarkHeldUp(w, r);
      case _ => OtherHeldUp(w, step, r);
    }
  }

  lemma LogGrows(w: World, step: Step)
    ensures w.log <= Next(w, step).log
  {
  }

  lemma {:induction false} RunLogGrows(w: World, steps: seq<Step>)
    ensures w.log <= Run(w, steps).log
  {
    if steps != [] {
      hide Next;
      RunLogGrows(w, steps[..|steps| - 1]);
      LogGrows(Run(w, steps[..|steps| - 1]), steps[|steps| - 1]);
    }
  }

  lemma {:induction false} RunFromBatch(w: World, steps: seq<Step>)
    requires BatchInv(w)
    ensures BatchInv(Run(w, steps))
  {
    if steps != [] {
      hide BatchInv, Next;
      RunFromBatch(w, steps[..|steps| - 1]);
      BatchKept(Run(w, steps[..|steps| - 1]), steps[|steps| - 1]);
    }
  }

  /** A row that is fetched and never delivered, because its payload does not decode or its delivery
      always fails, blocks the rows above it for good: as long as it is not delivered it stays unprocessed,
      only rows below it are delivered, and no row above it is processed, through any number of restarts. */
  lemma {:induction false} UndeliveredRowBlocks(w: World, steps: seq<Step>, r: RowId)
    requires BatchInv(w) && InFront(w, r)
    requires w.log <= Run(w, steps).log && r !in Run(w, steps).log[|w.log|..]
    ensures InFront(Run(w, steps), r) && HeldUp(w, Run(w, steps), r)
  {
    if steps != [] {
      hide Next, BatchInv, InFront, HeldUp;
      var front, last := steps[..|steps| - 1], steps[|steps| - 1];
      var v := Run(w, front);
      RunLogGrows(w, front);
      LogGrows(v, last);
      NotDeliveredBefore(w.log, v.log, Next(v, last).log, r);
      UndeliveredRowBlocks(w, front, r);
      RunFromBatch(w, front);
      NextHeldUp(v, last, r);
      HeldUpTransitive(w, v, Next(v, last), r);
    } else {
      hide InFront;
    }
  }

  lemma NotDeliveredBefore(a: seq<RowId>, b: seq<RowId>, c: seq<RowId>, r: RowId)
    requires a <= b <= c && r !in c[|a|..]
    ensures r !in b[|a|..] && r !in c[|b|..]
  {
    forall x | x in b[|a|..]
      ensures x in c[|a|..]
    {
      var i :| 0 <= i < |b[|a|..]| && b[|a|..][i] == x;
      assert c[|a|..][i] == x;
    }
    forall x | x in c[|b|..]
      ensures x in c[|a|..]
    {
      var i :| 0 <= i < |c[|b|..]| && c[|b|..][i] == x;
      assert c[|a|..][i + |b| - |a|] == x;
    }
  }

  lemma HeldUpTransitive(w: World, v: World, u: World, r: RowId)
    requires HeldUp(w, v, r) && HeldUp(v, u, r)
    ensures HeldUp(w, u, r)
  {
    forall i | |w.log| <= i < |u.log|
      ensures u.log[i] < r
    {
      if i < |v.log| {
        assert u.log[i] == v.log[i];
      }
    }
  }

  // --- When the whole log is in order --------------------------------

  ghost predicate Sorted(log: seq<RowId>) {
    forall i, j | 0 <= i < j < |log| :: log[i] <= log[j]
  }

  /** No unprocessed row lies below a delivered one. */
  ghost predicate NoneBelow(w: World) {
    forall r: RowId, x: RowId | Unprocessed(w.rows, r) && x in w.log :: x <= r
  }

  ghost predicate Drained(w: World) {
    forall r | r in w.rows :: w.rows[r]
  }

  lemma NextSorted(w: World, step: Step)
    requires BatchInv(w) && Sorted(w.log) && NoneBelow(w)
    ensures Sorted(Next(w, step).log)
  {
    if Enabled(w, step) && step.Deliver? {
      var y := w.pc.batch[0];
      assert y in BatchOf(w.pc) && Unprocessed(w.rows, y);
      assert forall i | 0 <= i < |w.log| :: w.log[i] in w.log && w.log[i] <= y;
      hide IsBacklog;
    } else {
      hide IsBacklog, BatchInv;
      assert Next(w, step).log == w.log;
    }
  }

  lemma {:induction false} NoneBelowSorts(steps: seq<Step>)
    requires forall i | 0 <= i <= |steps| :: NoneBelow(Run(INIT, steps[..i]))
    ensures Sorted(Run(INIT, steps).log)
  {
    if steps != [] {
      hide Next, NoneBelow, Sorted, BatchInv;
      var front := steps[..|steps| - 1];
      forall i | 0 <= i <= |front|
        ensures NoneBelow(Run(INIT, front[..i]))
      {
        assert front[..i] == steps[..i];
      }
      NoneBelowSorts(front);
      RunBatch(front);
      assert front[..|front|] == front;
      NextSorted(Run(INIT, front), steps[|steps| - 1]);
    } else {
      hide Next;
    }
  }

  /** While a row is being marked it is the latest delivery. */
  ghost predicate MarksLast(w: World) {
    w.pc.Marking? && w.pc.batch != [] ==> w.log != [] && w.log[|w.log| - 1] == w.pc.batch[0]
  }

  lemma NextMarksLast(w: World, step: Step)
    requires MarksLast(w)
    ensures MarksLast(Next(w, step))
  {
    hide IsBacklog;
  }

  lemma {:induction false} RunMarksLast(steps: seq<Step>)
    ensures MarksLast(Run(INIT, steps))
  {
    if steps != [] {
      hide MarksLast, Next;
      RunMarksLast(steps[..|steps| - 1]);
      NextMarksLast(Run(INIT, steps[..|steps| - 1]), steps[|steps| - 1]);
    }
  }

  lemma NextNeedsDelivery(w: World, step: Step, r: RowId)
    requires Unprocessed(w.rows, r) && !AtMark(w, r)
    ensures var w' := Next(w, step);
            || (Unprocessed(w'.rows, r) && !AtMark(w', r))
            || (|w'.log| == |w.log| + 1 && w'.log[|w.log|] == r)
  {
    hide IsBacklog;
  }

  /** Processing a row takes a delivery of it. */
  lemma {:induction false} ProcessedNeedsDelivery(w: World, steps: seq<Step>, r: RowId)
    requires Unprocessed(w.rows, r) && !AtMark(w, r)
    ensures var w' := Run(w, steps);
            w.log <= w'.log && ((Unprocessed(w'.rows, r) && !AtMark(w', r)) || r in w'.log[|w.log|..])
  {
    if steps != [] {
      hide Next, Unprocessed, AtMark;
      var front, last := steps[..|steps| - 1], steps[|steps| - 1];
      var v := Run(w, front);
      ProcessedNeedsDelivery(w, front, r);
      LogGrows(v, last);
      var u := Next(v, last);
      if r in v.log[|w.log|..] {
        var i :| 0 <= i < |v.log[|w.log|..]| && v.log[|w.log|..][i] == r;
        assert u.log[|w.log|..][i] == r;
      } else {
        NextNeedsDelivery(v, last, r);
        if |u.log| == |v.log| + 1 && u.log[|v.log|] == r {
          assert u.log[|w.log|..][|v.log| - |w.log|] == r;
        }
      }
    }
  }

  lemma RunSplit(w: World, steps: seq<Step>, i: nat)
    requires i <= |steps|
    ensures Run(w, steps) == Run(Run(w, steps[..i]), steps[i..])
    decreases |steps|
  {
    hide Next;
    if i == |steps| {
      assert steps[..i] == steps && steps[i..] == [];
    } else {
      var front, rest := steps[..|steps| - 1], steps[i..];
      RunSplit(w, front, i);
      assert front[..i] == steps[..i] && front[i..] == rest[..|rest| - 1];
    }
  }

  lemma SortedHasNoneBelow(steps: seq<Step>, i: nat, r: RowId, x: RowId)
    requires i <= |steps| && Sorted(Run(INIT, steps).log) && Drained(Run(INIT, steps))
    requires Unprocessed(Run(INIT, steps[..i]).rows, r) && x in Run(INIT, steps[..i]).log
    ensures x <= r
  {
    hide Next, Run;
    var w, w' := Run(INIT, steps[..i]), Run(INIT, steps);
    RunSplit(INIT, steps, i);
    RunLogGrows(w, steps[i..]);
    RunMarksLast(steps[..i]);
    var k :| 0 <= k < |w.log| && w.log[k] == x;
    assert w'.log[k] == x;
    if AtMark(w, r) {
      assert w'.log[|w.log| - 1] == r;
    } else {
      ProcessedNeedsDelivery(w, steps[i..], r);
      var j :| 0 <= j < |w'.log[|w.log|..]| && w'.log[|w.log|..][j] == r;
      assert w'.log[|w.log| + j] == r;
    }
  }

  /** Exactly when: the log of a run that ends with every row processed is non-decreasing if and only if
      no row was ever unprocessed below a row delivered before, whatever the order of the commits. */
  lemma LogSortedIff(steps: seq<Step>)
    requires Drained(Run(INIT, steps))
    ensures Sorted(Run(INIT, steps).log) <==> forall i | 0 <= i <= |steps| :: NoneBelow(Run(INIT, steps[..i]))
  {
    if Sorted(Run(INIT, steps).log) {
      hide Next, Run, Sorted, Drained;
      forall i | 0 <= i <= |steps|
        ensures NoneBelow(Run(INIT, steps[..i]))
      {
        forall r: RowId, x: RowId | Unprocessed(Run(INIT, steps[..i]).rows, r) && x in Run(INIT, steps[..i]).log
          ensures x <= r
        {
          SortedHasNoneBelow(steps, i, r, x);
        }
      }
    } else {
      hide Run, Sorted, NoneBelow;
      if forall i | 0 <= i <= |steps| :: NoneBelow(Run(INIT, steps[..i])) {
        NoneBelowSorts(steps);
      }
    }
  }
}
