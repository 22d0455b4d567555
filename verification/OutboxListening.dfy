/** The dispatcher listens: from the steps of a run alone, a row committed while it runs is notified, an
    arrived notification rings, a ring leads to a fetch with the row, and nothing else rings. */
module OutboxListening {
  import opened Outbox
  import opened OutboxWakeups
  import opened OutboxDelivery

  ghost function At(steps: seq<Step>, i: nat): World
    requires i <= |steps|
  {
    Run(INIT, steps[..i])
  }

  /** Step `i` is `step` and takes effect. */
  ghost predicate Takes(steps: seq<Step>, i: nat, step: Step)
    requires i < |steps|
  {
    steps[i] == step && Enabled(At(steps, i), step)
  }

  /** A listener is added at step `i`, and no stop or crash comes after it, up to step `n`. */
  ghost predicate Attached(steps: seq<Step>, i: nat, n: nat)
    requires i < n <= |steps|
  {
    && Takes(steps, i, Subscribe)
    && forall k | i < k < n :: !Takes(steps, k, Stop) && !Takes(steps, k, Crash)
  }

  lemma NextOf(steps: seq<Step>, i: nat)
    requires i < |steps|
    ensures At(steps, i + 1) == Next(At(steps, i), steps[i])
  {
    assert steps[..i + 1][..i] == steps[..i];
  }

  lemma NextListens(w: World, step: Step)
    requires w.listening && !(Enabled(w, step) && (step.Stop? || step.Crash?))
    ensures Next(w, step).listening
  {
    hide IsBacklog;
  }

  lemma {:induction false} ListensOn(steps: seq<Step>, i: nat, n: nat)
    requires i < n <= |steps| && Attached(steps, i, n)
    ensures At(steps, n).listening
    decreases n
  {
    hide Run, IsBacklog;
    NextOf(steps, n - 1);
    if n > i + 1 {
      ListensOn(steps, i, n - 1);
      assert !Takes(steps, n - 1, Stop) && !Takes(steps, n - 1, Crash);
      NextListens(At(steps, n - 1), steps[n - 1]);
    }
  }

  /** Row `r` was committed and every notification of it that did not arrive is in flight. */
  ghost predicate Notified(w: World, r: RowId, arrived: bool) {
    && r in w.rows && r !in w.lost && r !in w.unheard
    && (r in w.inFlight <==> !arrived)
  }

  lemma NextNotified(w: World, step: Step, r: RowId, arrived: bool)
    requires Notified(w, r, arrived)
    requires !(Enabled(w, step) && (step.Stop? || step.Crash? || step == NotifyLost(r)))
    ensures Notified(Next(w, step), r, arrived || (Enabled(w, step) && step == NotifyArrives(r)))
  {
    hide IsBacklog;
  }

  lemma NextStaysArrived(w: World, step: Step, r: RowId)
    requires Notified(w, r, true)
    ensures Notified(Next(w, step), r, true)
  {
    hide IsBacklog;
  }

  lemma CommitNotifies(w: World, r: RowId)
    requires w.listening && Enabled(w, Commit(r)) && r !in w.lost && r !in w.unheard
    ensures Notified(Next(w, Commit(r)), r, false)
  {
  }

  /** Only committed rows are ever notified, lost or unheard. */
  ghost predicate HistoryOfRows(w: World) {
    w.inFlight <= w.rows.Keys && w.lost <= w.rows.Keys && w.unheard <= w.rows.Keys
  }

  lemma NextHistory(w: World, step: Step)
    requires HistoryOfRows(w) && BatchInv(w)
    ensures HistoryOfRows(Next(w, step))
  {
    hide IsBacklog, Increasing;
    if Enabled(w, step) && step.Mark? {
      assert w.pc.batch[0] in BatchOf(w.pc);
    }
  }

  lemma {:induction false} RunHistory(steps: seq<Step>)
    ensures HistoryOfRows(Run(INIT, steps))
  {
    if steps != [] {
      hide Next, HistoryOfRows, BatchInv;
      RunHistory(steps[..|steps| - 1]);
      RunBatch(steps[..|steps| - 1]);
      NextHistory(Run(INIT, steps[..|steps| - 1]), steps[|steps| - 1]);
    }
  }

  ghost predicate ArrivedBetween(steps: seq<Step>, j: nat, n: nat, r: RowId)
    requires n <= |steps|
  {
    exists k | j < k < n :: Takes(steps, k, NotifyArrives(r))
  }

  /** A row committed at step `j` while a listener is attached is notified: as long as its notification is
      not lost and the dispatcher not stopped, it is in flight until it arrives, and never unheard. */
  lemma {:induction false} CommittedIsNotified(steps: seq<Step>, i: nat, j: nat, n: nat, r: RowId)
    requires i < j < n <= |steps| && Attached(steps, i, n) && Takes(steps, j, Commit(r))
    requires forall k | j < k < n :: !Takes(steps, k, NotifyLost(r))
    ensures Notified(At(steps, n), r, ArrivedBetween(steps, j, n, r))
    decreases n
  {
    hide Run, IsBacklog, Next, Enabled, Notified;
    NextOf(steps, n - 1);
    if n == j + 1 {
      assert Attached(steps, i, j);
      ListensOn(steps, i, j);
      RunHistory(steps[..j]);
      NewRow(At(steps, j), r);
      CommitNotifies(At(steps, j), r);
    } else {
      assert Attached(steps, i, n - 1);
      CommittedIsNotified(steps, i, j, n - 1, r);
      var w, step := At(steps, n - 1), steps[n - 1];
      assert !Takes(steps, n - 1, Stop) && !Takes(steps, n - 1, Crash) && !Takes(steps, n - 1, NotifyLost(r));
      NextNotified(w, step, r, ArrivedBetween(steps, j, n - 1, r));
      ArrivedSnoc(steps, j, n, r);
    }
  }

  lemma NewRow(w: World, r: RowId)
    requires HistoryOfRows(w) && Enabled(w, Commit(r))
    ensures r !in w.lost && r !in w.unheard
  {
  }

  lemma ArrivedSnoc(steps: seq<Step>, j: nat, n: nat, r: RowId)
    requires j + 1 < n <= |steps|
    ensures ArrivedBetween(steps, j, n, r) <==>
            ArrivedBetween(steps, j, n - 1, r) || Takes(steps, n - 1, NotifyArrives(r))
  {
    hide Takes;
  }

  /** Once heard of, a row stays heard of, stops and crashes included. */
  lemma {:induction false} StaysArrived(steps: seq<Step>, n: nat, m: nat, r: RowId)
    requires n <= m <= |steps| && Notified(At(steps, n), r, true)
    ensures Notified(At(steps, m), r, true)
    decreases m
  {
    hide Run, Next, Notified;
    if n < m {
      StaysArrived(steps, n, m - 1, r);
      NextOf(steps, m - 1);
      NextStaysArrived(At(steps, m - 1), steps[m - 1], r);
    }
  }

  /** Main result, from the steps alone.  A row is committed after the listener was added, and its
      notification arrives before any stop or crash.  Then whenever the dispatcher is parked later on, the
      row is processed, or the doorbell is set, the dispatcher can wake, and the fetch that follows has the
      row in its batch. */
  lemma ArrivalLeadsToFetch(steps: seq<Step>, i: nat, j: nat, k: nat, r: RowId, backlog: seq<RowId>)
    requires i < j < k < |steps| && Attached(steps, i, k + 1)
    requires Takes(steps, j, Commit(r)) && Takes(steps, k, NotifyArrives(r))
    requires forall l | j < l < k :: !Takes(steps, l, NotifyLost(r))
    requires Run(INIT, steps).pc.Parked?
    ensures var w := Run(INIT, steps);
            && r in w.rows
            && (w.rows[r] || (w.doorbell && Enabled(w, Ring)))
            && (!w.rows[r] && IsBacklog(w.rows, backlog) ==>
                  var w' := Next(Next(w, Ring), Fetch(backlog));
                  w'.pc == Delivering(backlog) && r in backlog)
  {
    hide Run;
    assert steps[..|steps|] == steps;
    assert steps[k] != NotifyLost(r);
    CommittedIsNotified(steps, i, j, k + 1, r);
    assert ArrivedBetween(steps, j, k + 1, r);
    StaysArrived(steps, k + 1, |steps|, r);
    RunWake(steps);
    HeardRings(Run(INIT, steps), r, backlog);
  }

  lemma HeardRings(w: World, r: RowId, backlog: seq<RowId>)
    requires WakeInv(w) && Notified(w, r, true) && w.pc.Parked?
    ensures w.rows[r] || (w.doorbell && Enabled(w, Ring))
    ensures !w.rows[r] && IsBacklog(w.rows, backlog) ==>
              var w' := Next(Next(w, Ring), Fetch(backlog)); w'.pc == Delivering(backlog) && r in backlog
  {
    if !w.rows[r] {
      assert Unprocessed(w.rows, r) && Heard(w, r);
    }
  }

  // --- Nothing else rings --------------------------------------------

  /** The doorbell, if set, was rung by a notification that arrived at a step since which the dispatcher
      has neither been woken by it, nor by the poll timeout, nor stopped. */
  ghost predicate RungSince(steps: seq<Step>, i: nat, n: nat)
    requires n <= |steps|
  {
    && i < n && steps[i].NotifyArrives? && Enabled(At(steps, i), steps[i])
    && forall k | i < k < n ::
         !Takes(steps, k, Ring) && !Takes(steps, k, PollTimeout) && !Takes(steps, k, Stop) && !Takes(steps, k, Crash)
  }

  lemma NextDoorbell(w: World, step: Step)
    ensures Next(w, step).doorbell <==>
            || (Enabled(w, step) && step.NotifyArrives?)
            || (w.doorbell && !(Enabled(w, step) && (step.Ring? || step.PollTimeout? || step.Stop? || step.Crash?)))
  {
    hide IsBacklog;
  }

  /** The doorbell is set exactly when a notification has arrived since the latest wake-up, timeout, stop or
      crash; so every wake-up by the doorbell answers an arrival of its own. */
  lemma {:induction false} DoorbellIff(steps: seq<Step>, n: nat)
    requires n <= |steps|
    ensures At(steps, n).doorbell <==> exists i: nat :: RungSince(steps, i, n)
    decreases n
  {
    hide Run, Next, Enabled;
    if n == 0 {
      NoBellYet();
      assert steps[..0] == [];
    } else {
      var m := n - 1;
      DoorbellIff(steps, m);
      NextOf(steps, m);
      NextDoorbell(At(steps, m), steps[m]);
      if steps[m].NotifyArrives? && Enabled(At(steps, m), steps[m]) {
        assert RungSince(steps, m, n);
      }
      if i: nat :| RungSince(steps, i, m) && !Takes(steps, m, Ring) && !Takes(steps, m, PollTimeout)
                   && !Takes(steps, m, Stop) && !Takes(steps, m, Crash) {
        assert RungSince(steps, i, n);
      }
      if i: nat :| RungSince(steps, i, n) && i < m {
        assert RungSince(steps, i, m);
      }
    }
  }

  lemma NoBellYet()
    ensures !Run(INIT, []).doorbell
  {
  }

  // --- Notifications -------------------------------------------------

  /** A notification in flight may arrive or be lost.  A row enters the lost ones exactly when its
      notification is lost on the way, or was in flight when the dispatcher stopped or crashed; it never
      leaves them. */
  lemma LostIff(w: World, step: Step, r: RowId)
    ensures r in w.inFlight ==> Enabled(w, NotifyArrives(r)) && Enabled(w, NotifyLost(r))
    ensures r in Next(w, step).lost <==>
              || r in w.lost
              || (r in w.inFlight
                  && (step == NotifyLost(r) || (Enabled(w, step) && (step.Stop? || step.Crash?))))
  {
    hide IsBacklog;
  }

  // --- Redelivery ----------------------------------------------------

  /** A crash between the delivery of a row and its UPDATE can happen, and leads to a second delivery: the
      restarted dispatcher fetches the row again, whatever else it fetches. */
  lemma CrashRedelivers(w: World, r: RowId, backlog: seq<RowId>)
    requires BatchInv(w) && AtMark(w, r) && IsBacklog(w.rows, backlog)
    ensures Enabled(w, Crash)
    ensures var w' := Next(Next(Next(w, Crash), Start), Fetch(backlog));
            && w'.pc == Delivering(backlog) && r in backlog
            && w'.log == w.log && w'.crashes == w.crashes + 1 && w'.gaps == w.gaps + [r]
  {
    assert w.pc.batch[0] in BatchOf(w.pc) && Unprocessed(w.rows, r);
    var w1 := Next(w, Crash);
    assert w1.pc == Down && w1.rows == w.rows && w1.gaps == w.gaps + [r];
    hide Increasing;
  }

  /** A stop is seen after a scan of a listening dispatcher and once the listener is added; it ends the run
      with every delivered row marked, and the dispatcher can be started again. */
  lemma StopIsClean(w: World)
    requires (w.pc == Delivering([]) && w.listening) || w.pc.Subscribing?
    ensures Enabled(w, Stop)
    ensures var w' := Next(w, Stop);
            && w'.pc == Down && !w'.listening && w'.rows == w.rows && w'.log == w.log && w'.gaps == w.gaps
            && w'.crashes == w.crashes && Enabled(w', Start)
  {
    hide IsBacklog;
  }
}
