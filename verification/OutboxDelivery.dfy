/** How often and in which order rows reach the sink. */
module OutboxDelivery {
  import opened Outbox

  ghost function Processed(rows: map<RowId, bool>): set<RowId> {
    set r | r in rows && rows[r]
  }

  /** Row `r` has been delivered and its UPDATE is next. */
  ghost predicate AtMark(w: World, r: RowId) {
    w.pc.Marking? && w.pc.batch != [] && w.pc.batch[0] == r
  }

  ghost function Pending(pc: Pc): multiset<RowId> {
    if pc.Marking? && pc.batch != [] then multiset{pc.batch[0]} else multiset{}
  }

  // --- Accounting ----------------------------------------------------

  /** Conservation of deliveries: the log holds each processed row once, each row a crash caught
      between its delivery and its UPDATE once more per such crash, and the row being marked. */
  ghost predicate LedgerInv(w: World) {
    && multiset(w.log) == multiset(Processed(w.rows)) + multiset(w.gaps) + Pending(w.pc)
    && |w.gaps| <= w.crashes
  }

  lemma MarkKeepsLedger(w: World)
    requires BatchInv(w) && LedgerInv(w) && Enabled(w, Mark)
    ensures LedgerInv(Next(w, Mark))
  {
    hide Increasing;
    var w' := Next(w, Mark);
    var x := w.pc.batch[0];
    assert x in BatchOf(w.pc) && Unprocessed(w.rows, x);
    assert Processed(w'.rows) == Processed(w.rows) + {x};
  }

  lemma CommitKeepsLedger(w: World, id: RowId)
    requires LedgerInv(w) && Enabled(w, Commit(id))
    ensures LedgerInv(Next(w, Commit(id)))
  {
    var w' := Next(w, Commit(id));
    assert Processed(w'.rows) == Processed(w.rows);
    assert w'.log == w.log && w'.gaps == w.gaps && w'.pc == w.pc;
  }

  lemma CrashKeepsLedger(w: World)
    requires LedgerInv(w) && Enabled(w, Crash)
    ensures LedgerInv(Next(w, Crash))
  {
    hide Processed;
    var w' := Next(w, Crash);
    assert w'.rows == w.rows && w'.log == w.log && w'.pc == Down && w'.crashes == w.crashes + 1;
    assert w'.gaps == w.gaps + if Pending(w.pc) == multiset{} then [] else [w.pc.batch[0]];
    hide Next, Enabled;
    assert multiset(w'.gaps) == multiset(w.gaps) + Pending(w.pc);
  }

  lemma DeliverKeepsLedger(w: World)
    requires LedgerInv(w) && Enabled(w, Deliver)
    ensures LedgerInv(Next(w, Deliver))
  {
    hide Processed;
  }

  lemma LedgerKept(w: World, step: Step)
    requires BatchInv(w) && LedgerInv(w)
    ensures LedgerInv(Next(w, step))
  {
    if Enabled(w, step) {
      match step
      case Mark => MarkKeepsLedger(w);
      case Commit(id) => CommitKeepsLedger(w, id);
      case Crash => CrashKeepsLedger(w);
      case Deliver => DeliverKeepsLedger(w);
      case _ =>
        hide BatchInv, IsBacklog, Processed;
        var w' := Next(w, step);
        assert w'.rows == w.rows && w'.log == w.log && w'.gaps == w.gaps && Pending(w'.pc) == Pending(w.pc);
    }
  }

  lemma {:induction false} RunLedger(steps: seq<Step>)
    ensures LedgerInv(Run(INIT, steps))
  {
    if steps == [] {
      assert Processed(INIT.rows) == {};
    } else {
      hide LedgerInv, BatchInv, Next;
      RunBatch(steps[..|steps| - 1]);
      RunLedger(steps[..|steps| - 1]);
      LedgerKept(Run(INIT, steps[..|steps| - 1]), steps[|steps| - 1]);
    }
  }

  /** At-least-once, and how much more: a row's deliveries are one if it is processed, plus one per
      crash in its own gap, plus one while its UPDATE is pending. */
  lemma DeliveriesOfRow(steps: seq<Step>, r: RowId)
    ensures var w := Run(INIT, steps);
            multiset(w.log)[r] ==
              (if r in w.rows && w.rows[r] then 1 else 0) + multiset(w.gaps)[r] +
              (if AtMark(w, r) then 1 else 0)
  {
    RunLedger(steps);
    RunBatch(steps);
    hide Run;
    var w := Run(INIT, steps);
    assert r in Processed(w.rows) <==> r in w.rows && w.rows[r];
  }

  lemma ProcessedWasDelivered(steps: seq<Step>, r: RowId)
    requires r in Run(INIT, steps).rows && Run(INIT, steps).rows[r]
    ensures r in Run(INIT, steps).log
  {
    DeliveriesOfRow(steps, r);
    assert r in multiset(Run(INIT, steps).log);
  }

  lemma TotalDeliveries(steps: seq<Step>)
    ensures var w := Run(INIT, steps);
            |w.log| <= |Processed(w.rows)| + w.crashes + 1
  {
    RunLedger(steps);
    hide Run;
    var w := Run(INIT, steps);
    assert |multiset(w.log)| == |w.log| && |multiset(w.gaps)| == |w.gaps|;
    assert |multiset(Processed(w.rows))| == |Processed(w.rows)|;
  }

  // --- Order ---------------------------------------------------------

  ghost predicate OrderInv(w: World) {
    && (forall i, j | 0 <= i < j < |w.log| :: w.log[i] <= w.log[j])
    && (forall j | 0 < j < |w.log| :: w.log[j - 1] == w.log[j] <==> j in w.gapAt)
    && (forall n | n in w.gapAt :: 0 < n <= |w.log|)
    // nothing below the last delivered row is left, and that row is left only by a crash in its gap
    && (w.log != [] ==>
          var last := w.log[|w.log| - 1];
          && last in w.rows
          && (forall r: RowId | Unprocessed(w.rows, r) :: last <= r)
          && (w.pc.Marking? ==> AtMark(w, last) && |w.log| !in w.gapAt)
          && (!w.pc.Marking? ==> (Unprocessed(w.rows, last) <==> |w.log| in w.gapAt)))
    && (w.pc.Marking? ==> w.log != [])
    // rows that joined after the fetch lie above the whole batch
    && (forall r, x | Unprocessed(w.rows, r) && r !in BatchOf(w.pc) && x in BatchOf(w.pc) :: x < r)
  }

  lemma DeliverKeepsOrder(w: World)
    requires BatchInv(w) && OrderInv(w) && Enabled(w, Deliver)
    ensures OrderInv(Next(w, Deliver))
  {
    var w' := Next(w, Deliver);
    var x := w.pc.batch[0];
    assert x in BatchOf(w.pc) && Unprocessed(w.rows, x);
    assert BatchOf(w.pc) == w.pc.batch;
    forall r: RowId | Unprocessed(w.rows, r)
      ensures x <= r
    {
      if r in w.pc.batch {
        var i :| 0 <= i < |w.pc.batch| && w.pc.batch[i] == r;
      }
    }
    forall j | 0 < j < |w'.log|
      ensures w'.log[j - 1] == w'.log[j] <==> j in w'.gapAt
    {
      if j == |w.log| {
        assert w.log[j - 1] <= x;
        assert w.log[j - 1] < x ==> !Unprocessed(w.rows, w.log[j - 1]);
      }
    }
  }

  lemma MarkKeepsOrder(w: World)
    requires BatchInv(w) && OrderInv(w) && Enabled(w, Mark)
    ensures OrderInv(Next(w, Mark))
  {
    TailKept(w.pc.batch);
    hide Increasing;
    var w' := Next(w, Mark);
    assert forall r: RowId | Unprocessed(w'.rows, r) :: Unprocessed(w.rows, r) && r != w.pc.batch[0];
  }

  lemma CommitKeepsOrder(w: World, id: RowId)
    requires BatchInv(w) && OrderInv(w) && Enabled(w, Commit(id)) && Next(w, Commit(id)).inOrder
    ensures OrderInv(Next(w, Commit(id)))
  {
    hide Increasing;
    var w' := Next(w, Commit(id));
    assert forall r: RowId | Unprocessed(w'.rows, r) && r != id :: Unprocessed(w.rows, r);
    assert forall x | x in BatchOf(w.pc) :: Unprocessed(w.rows, x) && x < id;
  }

  lemma CrashKeepsOrder(w: World)
    requires BatchInv(w) && OrderInv(w) && Enabled(w, Crash)
    ensures OrderInv(Next(w, Crash))
  {
    hide Increasing;
    var w' := Next(w, Crash);
    assert w'.rows == w.rows && w'.log == w.log && w'.pc == Down;
    assert w'.gapAt == if w.pc.Marking? then w.gapAt + {|w.log|} else w.gapAt;
    hide Next, Enabled;
    if w.pc.Marking? {
      assert w.pc.batch[0] in BatchOf(w.pc);
    }
  }

  lemma OrderKept(w: World, step: Step)
    requires BatchInv(w) && OrderInv(w) && Next(w, step).inOrder
    ensures OrderInv(Next(w, step))
  {
    if Enabled(w, step) {
      match step
      case Deliver => DeliverKeepsOrder(w);
      case Mark => MarkKeepsOrder(w);
      case Commit(id) => CommitKeepsOrder(w, id);
      case Crash => CrashKeepsOrder(w);
      case _ => OtherStepsKeepOrder(w, step);
    }
  }

  lemma OtherStepsKeepOrder(w: World, step: Step)
    requires OrderInv(w) && Enabled(w, step)
    requires !step.Deliver? && !step.Mark? && !step.Commit? && !step.Crash?
    ensures OrderInv(Next(w, step))
  {
    var w' := Next(w, step);
    OtherStepsTouchNothing(w, step);
    hide Next, Enabled;
    if step.Fetch? {
      assert forall r: RowId | Unprocessed(w.rows, r) :: r in BatchOf(w'.pc);
    }
  }

  lemma OtherStepsTouchNothing(w: World, step: Step)
    requires Enabled(w, step)
    requires !step.Deliver? && !step.Mark? && !step.Commit? && !step.Crash?
    ensures var w' := Next(w, step);
            && w'.rows == w.rows && w'.log == w.log && w'.gapAt == w.gapAt
            && w'.pc.Marking? == w.pc.Marking? && (w.pc.Marking? ==> w'.pc == w.pc)
            && (BatchOf(w'.pc) == BatchOf(w.pc) || BatchOf(w'.pc) == []
                || forall r: RowId | Unprocessed(w.rows, r) :: r in BatchOf(w'.pc))
  {
    hide Increasing;
  }

  lemma {:induction false} RunOrder(steps: seq<Step>)
    requires Run(INIT, steps).inOrder
    ensures OrderInv(Run(INIT, steps))
  {
    if steps != [] {
      var w := Run(INIT, steps[..|steps| - 1]);
      assert w.inOrder;
      hide OrderInv, BatchInv, Next;
      RunBatch(steps[..|steps| - 1]);
      RunOrder(steps[..|steps| - 1]);
      OrderKept(w, steps[|steps| - 1]);
    }
  }

  /** If rows commit in id order, the whole delivered log is non-decreasing across any crashes, and
      two neighbours are equal exactly where a crash fell between a delivery and its UPDATE. */
  lemma LogInOrder(steps: seq<Step>)
    requires Run(INIT, steps).inOrder
    ensures var w := Run(INIT, steps);
            && (forall i, j | 0 <= i < j < |w.log| :: w.log[i] <= w.log[j])
            && (forall j | 0 < j < |w.log| :: w.log[j - 1] == w.log[j] <==> j in w.gapAt)
  {
    RunOrder(steps);
  }

  /** Without that condition the order is only best effort: a row committed late is delivered late. */
  lemma LateCommitBreaksOrder()
    ensures exists steps :: Run(INIT, steps).log == [2, 1] && Run(INIT, steps).crashes == 0
  {
    hide Run;
    SecondScan();
    var s9 := [Commit(2)] + [Start] + [Fetch([2])] + [Commit(1)]
              + [Deliver] + [Mark] + [EndScan] + [Subscribe] + [PollTimeout];
    RunSnoc(INIT, s9, Fetch([1]));
    RunSnoc(INIT, s9 + [Fetch([1])], Deliver);
    assert IsBacklog(Run(INIT, s9).rows, [1]);
    assert Run(INIT, s9 + [Fetch([1])] + [Deliver]).log == [2, 1];
  }

  lemma SecondScan()
    ensures var s9 := [Commit(2)] + [Start] + [Fetch([2])] + [Commit(1)]
                      + [Deliver] + [Mark] + [EndScan] + [Subscribe] + [PollTimeout];
            var w := Run(INIT, s9);
            w.rows == map[2 := true, 1 := false] && w.pc == Scanning && w.log == [2] && w.crashes == 0
  {
    hide Run, IsBacklog;
    var s6 := [Commit(2)] + [Start] + [Fetch([2])] + [Commit(1)] + [Deliver] + [Mark];
    FirstScan();
    RunSnoc(INIT, s6, EndScan);
    RunSnoc(INIT, s6 + [EndScan], Subscribe);
    RunSnoc(INIT, s6 + [EndScan] + [Subscribe], PollTimeout);
    ScanAgain(Run(INIT, s6));
  }

  lemma ScanAgain(w: World)
    requires w.pc == Delivering([]) && !w.listening
    ensures var w' := Next(Next(Next(w, EndScan), Subscribe), PollTimeout);
            w'.rows == w.rows && w'.pc == Scanning && w'.log == w.log && w'.crashes == w.crashes
  {
    hide IsBacklog;
    assert Next(w, EndScan) == w.(pc := Subscribing);
  }

  lemma FirstScan()
    ensures var w := Run(INIT, [Commit(2)] + [Start] + [Fetch([2])] + [Commit(1)] + [Deliver] + [Mark]);
            && w.rows == map[2 := true, 1 := false] && w.pc == Delivering([]) && !w.listening
            && w.log == [2] && w.crashes == 0
  {
    hide Run, IsBacklog;
    var s4 := [Commit(2)] + [Start] + [Fetch([2])] + [Commit(1)];
    CommitDuringScan();
    RunSnoc(INIT, s4, Deliver);
    RunSnoc(INIT, s4 + [Deliver], Mark);
    var w := Run(INIT, s4);
    assert Next(w, Deliver) == w.(log := [2], pc := Marking([2]));
    assert [2][1..] == [];
    assert map[2 := false, 1 := false][2 := true] == map[2 := true, 1 := false];
  }

  lemma CommitDuringScan()
    ensures var w := Run(INIT, [Commit(2)] + [Start] + [Fetch([2])] + [Commit(1)]);
            && w.rows == map[2 := false, 1 := false] && w.pc == Delivering([2]) && !w.listening
            && w.log == [] && w.crashes == 0
  {
    assert [] + [Commit(2)] == [Commit(2)];
    RunSnoc(INIT, [], Commit(2));
    RunSnoc(INIT, [Commit(2)], Start);
    RunSnoc(INIT, [Commit(2)] + [Start], Fetch([2]));
    RunSnoc(INIT, [Commit(2)] + [Start] + [Fetch([2])], Commit(1));
    assert Run(INIT, []) == INIT;
    hide Run;
    assert IsBacklog(map[2 := false], [2]);
  }
}
