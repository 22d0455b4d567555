/** The dispatcher never sleeps through a row it was told about, and never leaves a row behind
    for more than one scan. */
module OutboxWakeups {
  import opened Outbox

  /** A row whose notification reached the listener. */
  ghost predicate Heard(w: World, r: RowId) {
    r !in w.inFlight && r !in w.lost && r !in w.unheard
  }

  /** Every heard, unprocessed row is about to be scanned: a fetch comes before the next park, or
      the doorbell is set, or the row is in the batch at hand. */
  ghost predicate WakeInv(w: World) {
    && (!w.listening ==> w.inFlight == {})
    && (forall r: RowId | Unprocessed(w.rows, r) && Heard(w, r) ::
          w.doorbell || w.pc.Down? || w.pc.Scanning? || r in BatchOf(w.pc))
    && (forall r | r in w.inFlight :: r in w.rows)
  }

  /** Past its latest fetch, the dispatcher has processed what the table held then, or has it in the batch. */
  ghost predicate FetchInv(w: World) {
    && w.fetched <= w.rows.Keys
    && (!w.pc.Down? && !w.pc.Scanning? ==>
          w.scans > 0 && forall r | r in w.fetched :: w.rows[r] || r in BatchOf(w.pc))
  }

  lemma TailInBatch(b: seq<RowId>)
    requires b != []
    ensures forall r: RowId | r in b && r != b[0] :: r in b[1..]
  {
    forall r: RowId | r in b && r != b[0]
      ensures r in b[1..]
    {
      var i :| 0 <= i < |b| && b[i] == r;
      assert b[1..][i - 1] == r;
    }
  }

  lemma WakeKept(w: World, step: Step)
    requires WakeInv(w)
    ensures WakeInv(Next(w, step))
  {
    var w' := Next(w, step);
    if Enabled(w, step) && step.Mark? {
      TailInBatch(w.pc.batch);
      forall r: RowId | Unprocessed(w'.rows, r) && Heard(w', r)
        ensures w'.doorbell || r in BatchOf(w'.pc)
      {
        assert Unprocessed(w.rows, r) && Heard(w, r);
        assert r != w.pc.batch[0];
      }
    } else {
      forall r: RowId | Unprocessed(w'.rows, r) && Heard(w', r)
        ensures w'.doorbell || w'.pc.Down? || w'.pc.Scanning? || r in BatchOf(w'.pc)
      {
        if r in w.rows && Heard(w, r) {
          assert Unprocessed(w.rows, r);
        }
      }
    }
  }

  lemma FetchKept(w: World, step: Step)
    requires FetchInv(w)
    ensures FetchInv(Next(w, step))
  {
    var w' := Next(w, step);
    if Enabled(w, step) && step.Mark? {
      TailInBatch(w.pc.batch);
      forall r | r in w'.fetched
        ensures w'.rows[r] || r in BatchOf(w'.pc)
      {
        assert w.rows[r] || r in w.pc.batch;
      }
    }
  }

  lemma {:induction false} RunWake(steps: seq<Step>)
    ensures WakeInv(Run(INIT, steps)) && FetchInv(Run(INIT, steps))
  {
    if steps != [] {
      hide WakeInv, FetchInv, Next;
      RunWake(steps[..|steps| - 1]);
      WakeKept(Run(INIT, steps[..|steps| - 1]), steps[|steps| - 1]);
      FetchKept(Run(INIT, steps[..|steps| - 1]), steps[|steps| - 1]);
    }
  }

  /** No lost wake-up: whenever the dispatcher is parked with the doorbell clear, every unprocessed
      row's notification was lost, is still in flight, or was sent while nobody listened; and every
      such row was committed after the latest fetch. */
  lemma NoLostWakeup(steps: seq<Step>, r: RowId)
    requires var w := Run(INIT, steps); w.pc.Parked? && Unprocessed(w.rows, r)
    ensures var w := Run(INIT, steps);
            && r !in w.fetched
            && (!w.doorbell ==> r in w.lost || r in w.inFlight || r in w.unheard)
  {
    RunWake(steps);
  }

  /** What others may do between two steps of the dispatcher. */
  predicate Outside(step: Step) {
    step.Commit? || step.NotifyArrives? || step.NotifyLost?
  }

  lemma {:induction false} OutsideKeepsRows(w: World, steps: seq<Step>, r: RowId)
    requires Unprocessed(w.rows, r) && forall step | step in steps :: Outside(step)
    ensures Run(w, steps).pc == w.pc && Unprocessed(Run(w, steps).rows, r)
  {
    if steps != [] {
      hide IsBacklog;
      assert steps[|steps| - 1] in steps;
      OutsideKeepsRows(w, steps[..|steps| - 1], r);
    }
  }

  /** A parked dispatcher whose poll timeout fires fetches next, and its fetch covers every row that
      was unprocessed at the timeout or committed before the fetch, whatever commits and notifications
      come in between and whether or not a notification was ever heard. */
  lemma PollScansEverything(w: World, before: seq<Step>, after: seq<Step>, backlog: seq<RowId>, r: RowId)
    requires w.pc.Parked? && forall step | step in before + after :: Outside(step)
    requires Unprocessed(Run(Next(w, PollTimeout), before).rows, r)
    requires IsBacklog(Run(Next(w, PollTimeout), before + after).rows, backlog)
    ensures var w' := Run(Next(w, PollTimeout), before + after);
            && Enabled(w', Fetch(backlog)) && Next(w', Fetch(backlog)).pc == Delivering(backlog)
            && r in backlog
  {
    var w0 := Next(w, PollTimeout);
    RunAppend(w0, before, after);
    assert forall step | step in before :: step in before + after;
    assert forall step | step in after :: step in before + after;
    OutsideKeepsPc(w0, before);
    OutsideKeepsRows(Run(w0, before), after, r);
    hide Run, Increasing;
  }

  lemma {:induction false} OutsideKeepsPc(w: World, steps: seq<Step>)
    requires forall step | step in steps :: Outside(step)
    ensures Run(w, steps).pc == w.pc
  {
    if steps != [] {
      hide IsBacklog;
      assert steps[|steps| - 1] in steps;
      OutsideKeepsPc(w, steps[..|steps| - 1]);
    }
  }

  /** What a later world owes an earlier one. */
  ghost predicate Since(w0: World, w: World) {
    && w0.rows.Keys <= w.rows.Keys
    && (forall r | r in w0.rows && w0.rows[r] :: w.rows[r])
    && w0.scans <= w.scans
    && (w0.scans < w.scans ==> w0.rows.Keys <= w.fetched)
  }

  lemma SinceKept(w0: World, w: World, step: Step)
    requires Since(w0, w)
    ensures Since(w0, Next(w, step))
  {
    hide IsBacklog;
  }

  lemma {:induction false} RunSince(w: World, steps: seq<Step>)
    ensures Since(w, Run(w, steps))
  {
    if steps != [] {
      hide Since, Next;
      RunSince(w, steps[..|steps| - 1]);
      SinceKept(w, Run(w, steps[..|steps| - 1]), steps[|steps| - 1]);
    }
  }

  lemma {:induction false} RunAppend(w: World, s: seq<Step>, s': seq<Step>)
    ensures Run(w, s + s') == Run(Run(w, s), s')
  {
    if s' == [] {
      assert s + s' == s;
    } else {
      hide Next;
      var front, last := s'[..|s'| - 1], s'[|s'| - 1];
      RunAppend(w, s, front);
      assert s + s' == (s + front) + [last];
      RunSnoc(w, s + front, last);
    }
  }

  /** No row is lost: once the dispatcher is parked again after at least one further scan, whatever
      crashed, was lost or was committed meanwhile, every row of the earlier table is processed. */
  lemma NoRowIsLost(steps: seq<Step>, more: seq<Step>, r: RowId)
    requires r in Run(INIT, steps).rows
    requires var w := Run(Run(INIT, steps), more); w.pc.Parked? && w.scans > Run(INIT, steps).scans
    ensures var w := Run(Run(INIT, steps), more); r in w.rows && w.rows[r]
  {
    RunAppend(INIT, steps, more);
    RunWake(steps + more);
    RunSince(Run(INIT, steps), more);
  }
}
