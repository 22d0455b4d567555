/** The S3 adapter's lazily created shared client under cooperative concurrency.

    Tasks yield only at `await`, so a run is a sequence of atomic steps, each the code between
    two awaits.  `_get_client` may await the lock and the creation of the client; `aclose` awaits
    the exit of each client it pops from the exit stack.  Creation and exit may raise. */
module SharedClient {
  import opened Wrappers

  type Task = nat
  type Client = nat

  /** Where a task is suspended.  `failed` records that an exit already raised in this `aclose`. */
  datatype Pc = Idle | AtLock | Creating | Exiting(client: Client, failed: bool)

  datatype Status = Open | Closing | Closed

  datatype World = World(
    pcs: map<Task, Pc>,           // a task not in the map is idle
    lock: Option<Task>,
    cached: Option<Client>,       // _client_obj
    stack: seq<Client>,           // _exit_stack, top last
    status: seq<Status>,          // of every client created so far
    exits: seq<Client>,           // every exit called, in order
    served: seq<Client>,          // every client handed to an operation, in order
    stale: bool)                  // the latest aclose to end raised and left _client_obj set

  const INIT := World(map[], None, None, [], [], [], [], false)

  datatype Step =
    | GetClient(t: Task)      // first look at _client_obj
    | LockAcquired(t: Task)   // second look, under the lock
    | ClientCreated(t: Task)
    | CreationRaised(t: Task)
    | CallAclose(t: Task)
    | ExitReturned(t: Task)
    | ExitRaised(t: Task)

  function PcOf(w: World, t: Task): Pc {
    if t in w.pcs then w.pcs[t] else Idle
  }

  predicate Enabled(w: World, step: Step) {
    match step
    case GetClient(t) => PcOf(w, t).Idle?
    case LockAcquired(t) => PcOf(w, t).AtLock? && w.lock == None
    case ClientCreated(t) => PcOf(w, t).Creating?
    case CreationRaised(t) => PcOf(w, t).Creating?
    case CallAclose(t) => PcOf(w, t).Idle?
    case ExitReturned(t) => PcOf(w, t).Exiting?
    case ExitRaised(t) => PcOf(w, t).Exiting?
  }

  /** The loop of the exit stack's aclose, up to its next await or to the end of `aclose`. */
  function Drain(w: World, t: Task, failed: bool): World {
    if w.stack == [] then
      if failed then w.(pcs := w.pcs[t := Idle], stale := w.cached.Some?)
      else w.(pcs := w.pcs[t := Idle], cached := None, stale := false)
    else
      var c := w.stack[|w.stack| - 1];
      w.(pcs := w.pcs[t := Exiting(c, failed)],
         stack := w.stack[..|w.stack| - 1],
         status := if c < |w.status| then w.status[c := Closing] else w.status,
         exits := w.exits + [c])
  }

  function MarkClosed(w: World, c: Client): World {
    w.(status := if c < |w.status| then w.status[c := Closed] else w.status)
  }

  function Next(w: World, step: Step): World {
    if !Enabled(w, step) then w
    else
      match step
      case GetClient(t) =>
        if w.cached.Some? then w.(served := w.served + [w.cached.value])
        else w.(pcs := w.pcs[t := AtLock])
      case LockAcquired(t) =>
        if w.cached.Some? then w.(pcs := w.pcs[t := Idle], served := w.served + [w.cached.value])
        else w.(pcs := w.pcs[t := Creating], lock := Some(t))
      case ClientCreated(t) =>
        var c := |w.status|;
        w.(pcs := w.pcs[t := Idle], lock := None, cached := Some(c), stack := w.stack + [c],
           status := w.status + [Open], served := w.served + [c])
      case CreationRaised(t) =>
        w.(pcs := w.pcs[t := Idle], lock := None)
      case CallAclose(t) =>
        Drain(w, t, false)
      case ExitReturned(t) =>
        Drain(MarkClosed(w, PcOf(w, t).client), t, PcOf(w, t).failed)
      case ExitRaised(t) =>
        Drain(MarkClosed(w, PcOf(w, t).client), t, true)
  }

  /** Steps that are not enabled leave the world unchanged, so every sequence is a run. */
  function Run(w: World, steps: seq<Step>): World {
    if steps == [] then w
    else Next(Run(w, steps[..|steps| - 1]), steps[|steps| - 1])
  }

  // --- The invariant -------------------------------------------------

  ghost predicate StackInv(w: World) {
    && |w.stack| <= 1
    && (w.stack != [] ==> w.cached == Some(w.stack[0]))
    && (w.cached.Some? ==> w.cached.value < |w.status|)
  }

  ghost predicate LockInv(w: World) {
    && (forall t: Task :: PcOf(w, t).Creating? <==> w.lock == Some(t))
    && (w.lock.Some? ==> w.cached == None)
  }

  ghost predicate StatusInv(w: World) {
    && (forall c | 0 <= c < |w.status| :: w.status[c] == Open <==> c in w.stack)
    && (forall c | 0 <= c < |w.status| :: w.status[c] != Open <==> c in w.exits)
    && (forall c | c in w.exits :: c < |w.status|)
    && (forall i, j | 0 <= i < j < |w.exits| :: w.exits[i] != w.exits[j])
  }

  ghost predicate ExitInv(w: World) {
    && (forall t: Task | PcOf(w, t).Exiting? :: PcOf(w, t).client < |w.status| && w.status[PcOf(w, t).client] == Closing)
    && (forall t: Task, u: Task | t != u && PcOf(w, t).Exiting? && PcOf(w, u).Exiting? :: PcOf(w, t).client != PcOf(w, u).client)
    && (forall c | 0 <= c < |w.status| && w.status[c] == Closing ::
          exists t: Task :: PcOf(w, t).Exiting? && PcOf(w, t).client == c)
  }

  ghost predicate StaleInv(w: World) {
    && (w.cached.Some? && w.stack == [] ==>
          w.stale || exists t: Task :: PcOf(w, t).Exiting? && PcOf(w, t).client == w.cached.value)
    && (w.stale ==> w.cached.Some? && w.stack == [])
  }

  ghost predicate Inv(w: World) {
    StackInv(w) && LockInv(w) && StatusInv(w) && ExitInv(w) && StaleInv(w)
  }

  // --- Preservation --------------------------------------------------

  /** A world as `Drain` finds it: task `t` has just returned from an exit, or starts an aclose. */
  ghost predicate DrainReady(w: World, t: Task) {
    && StackInv(w) && StatusInv(w) && (w.stale ==> w.cached.Some? && w.stack == [])
    && (forall u: Task :: u != t ==> (PcOf(w, u).Creating? <==> w.lock == Some(u)))
    && w.lock != Some(t) && (w.lock.Some? ==> w.cached == None)
    && (forall u: Task | u != t && PcOf(w, u).Exiting? :: PcOf(w, u).client < |w.status| && w.status[PcOf(w, u).client] == Closing)
    && (forall u: Task, v: Task | u != t && v != t && u != v && PcOf(w, u).Exiting? && PcOf(w, v).Exiting? ::
          PcOf(w, u).client != PcOf(w, v).client)
    && (forall c | 0 <= c < |w.status| && w.status[c] == Closing ::
          exists u: Task :: u != t && PcOf(w, u).Exiting? && PcOf(w, u).client == c)
  }

  lemma DrainKeepsInv(w: World, t: Task, failed: bool)
    requires DrainReady(w, t)
    ensures Inv(Drain(w, t, failed))
  {
    if w.stack != [] {
      PopKeepsStatus(w, t, failed);
      PopKeepsExits(w, t, failed);
      var w' := Drain(w, t, failed);
      hide StatusInv, ExitInv;
      assert PcOf(w', t).Exiting? && forall u: Task | u != t :: PcOf(w', u) == PcOf(w, u);
    } else {
      EmptyKeepsInv(w, t, failed);
    }
  }

  lemma PopKeepsStatus(w: World, t: Task, failed: bool)
    requires StackInv(w) && StatusInv(w) && w.stack != []
    ensures StatusInv(Drain(w, t, failed))
  {
    var w', c := Drain(w, t, failed), w.stack[0];
    assert w.stack == [c] && w'.stack == [] && c < |w.status| && c !in w.exits;
    assert w'.status == w.status[c := Closing] && w'.exits == w.exits + [c];
  }

  lemma PopKeepsExits(w: World, t: Task, failed: bool)
    requires DrainReady(w, t) && w.stack != []
    ensures ExitInv(Drain(w, t, failed))
  {
    var w', c := Drain(w, t, failed), w.stack[0];
    assert w.stack == [c] && w.status[c] == Open;
    hide StatusInv;
    assert w'.status == w.status[c := Closing] && PcOf(w', t) == Exiting(c, failed);
    assert forall u: Task | u != t :: PcOf(w', u) == PcOf(w, u);
    hide Drain;
    forall d | 0 <= d < |w'.status| && w'.status[d] == Closing && d != c
      ensures exists u: Task :: PcOf(w', u).Exiting? && PcOf(w', u).client == d
    {
      var u: Task :| u != t && PcOf(w, u).Exiting? && PcOf(w, u).client == d;
      assert PcOf(w', u).Exiting?;
    }
  }

  lemma EmptyKeepsInv(w: World, t: Task, failed: bool)
    requires DrainReady(w, t) && w.stack == []
    ensures Inv(Drain(w, t, failed))
  {
    var w' := Drain(w, t, failed);
    assert StatusInv(w') && w'.status == w.status && PcOf(w', t) == Idle;
    assert forall u: Task | u != t :: PcOf(w', u) == PcOf(w, u);
    hide StatusInv;
    forall d | 0 <= d < |w'.status| && w'.status[d] == Closing
      ensures exists u: Task :: PcOf(w', u).Exiting? && PcOf(w', u).client == d
    {
      var u: Task :| u != t && PcOf(w, u).Exiting? && PcOf(w, u).client == d;
      assert PcOf(w', u).Exiting?;
    }
  }

  lemma ExitDone(w: World, t: Task)
    requires Inv(w) && PcOf(w, t).Exiting?
    ensures DrainReady(MarkClosed(w, PcOf(w, t).client), t)
  {
    var c := PcOf(w, t).client;
    var w' := MarkClosed(w, c);
    assert w'.status == w.status[c := Closed];
    assert forall u: Task :: PcOf(w', u) == PcOf(w, u);
    forall d | 0 <= d < |w'.status| && w'.status[d] == Closing
      ensures exists u: Task :: u != t && PcOf(w', u).Exiting? && PcOf(w', u).client == d
    {
      var u: Task :| PcOf(w, u).Exiting? && PcOf(w, u).client == d;
      assert u != t && PcOf(w', u) == PcOf(w, u);
    }
  }

  lemma CreationKeepsInv(w: World, t: Task)
    requires Inv(w) && PcOf(w, t).Creating?
    ensures Inv(Next(w, ClientCreated(t)))
  {
    var w' := Next(w, ClientCreated(t));
    assert w.lock == Some(t) && w.cached == None && w.stack == [];
    assert PcOf(w', t) == Idle && forall u: Task | u != t :: PcOf(w', u) == PcOf(w, u);
    forall d | 0 <= d < |w'.status| && w'.status[d] == Closing
      ensures exists u: Task :: PcOf(w', u).Exiting? && PcOf(w', u).client == d
    {
      var u: Task :| PcOf(w, u).Exiting? && PcOf(w, u).client == d;
      assert PcOf(w', u).Exiting?;
    }
  }

  lemma LookKeepsInv(w: World, step: Step)
    requires Inv(w) && Enabled(w, step) && (step.GetClient? || step.LockAcquired? || step.CreationRaised?)
    ensures Inv(Next(w, step))
  {
    var w' := Next(w, step);
    LookTouches(w, step);
    LookKeepsLock(w, step);
    hide StatusInv, LockInv, Next, Enabled;
    forall d | 0 <= d < |w'.status| && w'.status[d] == Closing
      ensures exists u: Task :: PcOf(w', u).Exiting? && PcOf(w', u).client == d
    {
      var u: Task :| PcOf(w, u).Exiting? && PcOf(w, u).client == d;
      assert PcOf(w', u).Exiting?;
    }
    if w.cached.Some? && exists u: Task :: PcOf(w, u).Exiting? && PcOf(w, u).client == w.cached.value {
      var u: Task :| PcOf(w, u).Exiting? && PcOf(w, u).client == w.cached.value;
      assert PcOf(w', u) == PcOf(w, u);
    }
  }

  lemma LookTouches(w: World, step: Step)
    requires StatusInv(w) && Enabled(w, step) && (step.GetClient? || step.LockAcquired? || step.CreationRaised?)
    ensures var w' := Next(w, step);
            && (forall u: Task | u != step.t :: PcOf(w', u) == PcOf(w, u))
            && !PcOf(w, step.t).Exiting? && !PcOf(w', step.t).Exiting?
            && w'.status == w.status && w'.stack == w.stack && w'.cached == w.cached && w'.stale == w.stale
            && StatusInv(w')
  {
  }

  lemma LookKeepsLock(w: World, step: Step)
    requires LockInv(w) && Enabled(w, step) && (step.GetClient? || step.LockAcquired? || step.CreationRaised?)
    ensures LockInv(Next(w, step))
  {
    var w' := Next(w, step);
    assert forall u: Task | u != step.t :: PcOf(w', u) == PcOf(w, u);
  }

  lemma NextKeepsInv(w: World, step: Step)
    requires Inv(w)
    ensures Inv(Next(w, step))
  {
    if Enabled(w, step) {
      match step
      case GetClient(t) => LookKeepsInv(w, step);
      case LockAcquired(t) => LookKeepsInv(w, step);
      case CreationRaised(t) => LookKeepsInv(w, step);
      case ClientCreated(t) => CreationKeepsInv(w, t);
      case CallAclose(t) =>
        assert DrainReady(w, t);
        DrainKeepsInv(w, t, false);
      case ExitReturned(t) =>
        ExitDone(w, t);
        DrainKeepsInv(MarkClosed(w, PcOf(w, t).client), t, PcOf(w, t).failed);
      case ExitRaised(t) =>
        ExitDone(w, t);
        DrainKeepsInv(MarkClosed(w, PcOf(w, t).client), t, true);
    }
  }

  lemma {:induction false} RunKeepsInv(steps: seq<Step>)
    ensures Inv(Run(INIT, steps))
  {
    hide Inv, Next;
    if steps != [] {
      RunKeepsInv(steps[..|steps| - 1]);
      NextKeepsInv(Run(INIT, steps[..|steps| - 1]), steps[|steps| - 1]);
    } else {
      InitInv();
    }
  }

  lemma InitInv()
    ensures Inv(INIT)
  {
  }

  // --- What the adapter can rely on ----------------------------------

  /** In every interleaving at most one client is open; it is the cached one and lies alone on the
      exit stack; no cached client means an empty stack. */
  lemma OneOpenClient(steps: seq<Step>)
    ensures var w := Run(INIT, steps);
            && (forall c, d | 0 <= c < |w.status| && 0 <= d < |w.status| && w.status[c] == w.status[d] == Open :: c == d)
            && (forall c | 0 <= c < |w.status| && w.status[c] == Open :: w.cached == Some(c) && w.stack == [c])
            && (w.cached == None ==> w.stack == [])
  {
    hide Run, LockInv, ExitInv, StaleInv;
    RunKeepsInv(steps);
  }

  /** Every client ever created is either still on the exit stack or has been exited exactly once. */
  lemma EveryClientExitsOnce(steps: seq<Step>, c: Client)
    requires c < |Run(INIT, steps).status|
    ensures var w := Run(INIT, steps);
            multiset(w.stack)[c] + multiset(w.exits)[c] == 1
  {
    hide Run, LockInv, ExitInv, StaleInv;
    RunKeepsInv(steps);
    var w := Run(INIT, steps);
    NoDuplicates(w.exits, c);
    NoDuplicates(w.stack, c);
  }

  lemma {:induction false} NoDuplicates(s: seq<Client>, c: Client)
    requires forall i, j | 0 <= i < j < |s| :: s[i] != s[j]
    ensures multiset(s)[c] == if c in s then 1 else 0
  {
    if s != [] {
      assert s == [s[0]] + s[1..];
      NoDuplicates(s[1..], c);
      assert forall i | 0 <= i < |s[1..]| :: s[1..][i] == s[i + 1];
    }
  }

  /** At most one task creates a client at any time, and while it does no other one is open. */
  lemma CreationIsExclusive(steps: seq<Step>, t: Task, u: Task)
    requires PcOf(Run(INIT, steps), t).Creating?
    ensures PcOf(Run(INIT, steps), u).Creating? ==> t == u
    ensures var w := Run(INIT, steps); forall c | 0 <= c < |w.status| :: w.status[c] != Open
  {
    hide Run, ExitInv, StaleInv;
    RunKeepsInv(steps);
  }

  ghost predicate ExitInFlight(w: World, c: Client) {
    exists t: Task :: PcOf(w, t).Exiting? && PcOf(w, t).client == c
  }

  lemma InvCachedIsOpen(w: World, c: Client)
    requires Inv(w) && w.cached == Some(c)
    ensures c < |w.status|
    ensures w.status[c] == Open <==> w.stack == [c]
    ensures w.status[c] == Open <==> !w.stale && !ExitInFlight(w, c)
  {
    hide LockInv;
    if w.stack != [] {
      assert w.stack == [c];
    }
  }

  /** In every run the cached client is open exactly when it lies on the exit stack, and exactly when
      neither has an aclose that raised left it behind nor is its own exit in flight; exits of other
      clients do not matter. */
  lemma CachedIsOpenIff(steps: seq<Step>, c: Client)
    requires Run(INIT, steps).cached == Some(c)
    ensures var w := Run(INIT, steps);
            && c < |w.status| && (w.status[c] == Open <==> w.stack == [c])
            && (w.status[c] == Open <==> !w.stale && !ExitInFlight(w, c))
  {
    hide Run, Inv;
    RunKeepsInv(steps);
    InvCachedIsOpen(Run(INIT, steps), c);
  }

  /** The step looks at the cached client and finds one, at the first look or at the second, under the lock. */
  ghost predicate Finds(w: World, look: Step) {
    Enabled(w, look) && w.cached.Some? && (look.GetClient? || look.LockAcquired?)
  }

  /** An operation that finds a cached client, at either look, is handed that client and leaves it as it is;
      it is open exactly when it was not left behind and its exit is not in flight. */
  lemma ServedClientIsOpenIff(steps: seq<Step>, look: Step)
    requires Finds(Run(INIT, steps), look)
    ensures var (w, w', c) := (Run(INIT, steps), Run(INIT, steps + [look]), Run(INIT, steps).cached.value);
            && w'.served == w.served + [c] && w'.cached == Some(c) && w'.status == w.status
            && c < |w'.status| && (w'.status[c] == Open <==> !w.stale && !ExitInFlight(w, c))
  {
    RunSnoc(steps, look);
    hide Run, ExitInFlight;
    CachedIsOpenIff(steps, Run(INIT, steps).cached.value);
  }

  /** The third way to be handed a client is to create it: it is then cached and open. */
  lemma CreatedClientIsOpen(steps: seq<Step>, t: Task)
    requires PcOf(Run(INIT, steps), t).Creating?
    ensures var (w, w') := (Run(INIT, steps), Run(INIT, steps + [ClientCreated(t)]));
            var c := |w.status|;
            w'.served == w.served + [c] && w'.cached == Some(c) && w'.status == w.status + [Open]
  {
    RunSnoc(steps, ClientCreated(t));
    hide Run;
  }

  /** `step` is the last of an aclose: it finds the exit stack empty and returns or raises. */
  ghost predicate EndsAclose(w: World, step: Step) {
    Enabled(w, step) && w.stack == [] && (step.CallAclose? || step.ExitReturned? || step.ExitRaised?)
  }

  /** The end of an aclose leaves no cached client, so that the next operation creates one again, exactly
      when there was none or when none of its exits raised; in either case no client is open. */
  lemma AcloseResetsIff(steps: seq<Step>, last: Step)
    requires EndsAclose(Run(INIT, steps), last)
    ensures var w := Run(INIT, steps);
            var w' := Next(w, last);
            && (w'.cached == None <==>
                  w.cached == None || last.CallAclose? || (last.ExitReturned? && !PcOf(w, last.t).failed))
            && PcOf(w', last.t) == Idle
            && (forall c | 0 <= c < |w'.status| :: w'.status[c] != Open)
            && (w'.cached == None <==>
                  forall u: Task | PcOf(w', u).Idle? :: PcOf(Next(w', GetClient(u)), u) == AtLock)
  {
    RunKeepsInv(steps);
    var w := Run(INIT, steps);
    NextKeepsInv(w, last);
    hide Run, ExitInv, StaleInv, LockInv;
    var w' := Next(w, last);
    assert w'.stack == [];
    assert w'.cached.Some? ==> PcOf(Next(w', GetClient(last.t)), last.t) == Idle;
  }

  lemma RunSnoc(steps: seq<Step>, step: Step)
    ensures Run(INIT, steps + [step]) == Next(Run(INIT, steps), step)
  {
    assert (steps + [step])[..|steps|] == steps;
  }

  /** Some task can go on without a new call being made. */
  ghost predicate CanGoOn(w: World) {
    exists step :: Enabled(w, step) && !step.GetClient? && !step.CallAclose?
  }

  lemma InvCanGoOn(w: World, t: Task)
    requires Inv(w) && PcOf(w, t) != Idle
    ensures CanGoOn(w)
  {
    match PcOf(w, t)
    case Creating => assert Enabled(w, ClientCreated(t));
    case Exiting(_, _) => assert Enabled(w, ExitReturned(t));
    case AtLock =>
      match w.lock
      case None => assert Enabled(w, LockAcquired(t));
      case Some(u) =>
        assert PcOf(w, u).Creating?;
        assert Enabled(w, ClientCreated(u));
  }

  /** No deadlock: in every run, as long as a task is inside `_get_client` or `aclose`, some task can go on. */
  lemma NoDeadlock(steps: seq<Step>, t: Task)
    requires PcOf(Run(INIT, steps), t) != Idle
    ensures CanGoOn(Run(INIT, steps))
  {
    hide Run, Inv, CanGoOn;
    RunKeepsInv(steps);
    InvCanGoOn(Run(INIT, steps), t);
  }

  /** What a task waits for may come out either way: a creation or an exit may return or raise, and an idle
      task may make either call. */
  lemma AwaitsMayReturnOrRaise(w: World, t: Task)
    ensures PcOf(w, t) == Idle <==> Enabled(w, GetClient(t))
    ensures PcOf(w, t) == Idle <==> Enabled(w, CallAclose(t))
    ensures PcOf(w, t).Creating? ==> Enabled(w, ClientCreated(t)) && Enabled(w, CreationRaised(t))
    ensures PcOf(w, t).Exiting? ==> Enabled(w, ExitReturned(t)) && Enabled(w, ExitRaised(t))
  {
  }

  /** A creation that raises gives the lock back and caches nothing, so that the next task creates. */
  lemma FailedCreationIsForgotten(steps: seq<Step>, t: Task)
    requires PcOf(Run(INIT, steps), t).Creating?
    ensures var w' := Next(Run(INIT, steps), CreationRaised(t));
            && w'.cached == None && w'.lock == None && PcOf(w', t) == Idle
            && forall u: Task | PcOf(w', u) == AtLock :: PcOf(Next(w', LockAcquired(u)), u).Creating?
  {
    hide Run, ExitInv, StaleInv, StatusInv;
    RunKeepsInv(steps);
  }

  /** The client is created, and an aclose waits for its exit. */
  const ACLOSE_WAITING: seq<Step> := [GetClient(0)] + [LockAcquired(0)] + [ClientCreated(0)] + [CallAclose(0)]

  lemma AcloseWaits()
    ensures Run(INIT, ACLOSE_WAITING) ==
            World(map[0 := Exiting(0, false)], None, Some(0), [], [Closing], [0], [0], false)
  {
    OneClientOpened();
    RunSnoc([GetClient(0)] + [LockAcquired(0)] + [ClientCreated(0)], CallAclose(0));
    hide Run;
    assert [Open][0 := Closing] == [Closing] && [] + [0] == [0];
  }

  /** The first way to be handed a client that is not open: an exit raises, `aclose` does not clear the
      cache, and the next operation gets the closed client. */
  lemma RaisingExitLeavesStaleClient()
    ensures var w := Run(INIT, ACLOSE_WAITING + [ExitRaised(0)] + [GetClient(0)]);
            w.served == [0, 0] && w.status == [Closed] && w.cached == Some(0) && w.stale
  {
    hide Run;
    AcloseWaits();
    RunSnoc(ACLOSE_WAITING, ExitRaised(0));
    RunSnoc(ACLOSE_WAITING + [ExitRaised(0)], GetClient(0));
    var w := Run(INIT, ACLOSE_WAITING + [ExitRaised(0)]);
    assert w.served == [0] && w.status == [Closed] && w.cached == Some(0) && w.stale && PcOf(w, 0) == Idle;
  }

  /** The second way: while an aclose waits for the exit, the client is still cached, and an operation
      that looks then is handed the client being closed. */
  lemma OperationDuringAcloseGetsClosingClient()
    ensures var w := Run(INIT, ACLOSE_WAITING + [GetClient(1)]);
            w.served == [0, 0] && w.status == [Closing] && w.cached == Some(0) && !w.stale
  {
    hide Run;
    AcloseWaits();
    RunSnoc(ACLOSE_WAITING, GetClient(1));
    assert [0] + [0] == [0, 0];
  }

  /** An exit in flight does no harm to another client: a second aclose clears the cache meanwhile, the
      next operation creates a client, and the one after it is handed that open client. */
  lemma OperationDuringOtherExitGetsOpenClient()
    ensures var w := Run(INIT, ACLOSE_WAITING + [CallAclose(2)] + [GetClient(3)] + [LockAcquired(3)]
                               + [ClientCreated(3)] + [GetClient(4)]);
            ExitInFlight(w, 0) && w.served == [0, 1, 1] && w.status == [Closing, Open] && w.cached == Some(1)
  {
    hide Run;
    AcloseWaits();
    var s1 := ACLOSE_WAITING + [CallAclose(2)];
    RunSnoc(ACLOSE_WAITING, CallAclose(2));
    RunSnoc(s1, GetClient(3));
    RunSnoc(s1 + [GetClient(3)], LockAcquired(3));
    RunSnoc(s1 + [GetClient(3)] + [LockAcquired(3)], ClientCreated(3));
    RunSnoc(s1 + [GetClient(3)] + [LockAcquired(3)] + [ClientCreated(3)], GetClient(4));
    var w1 := Run(INIT, s1);
    assert w1.cached == None && w1.status == [Closing] && w1.served == [0] && PcOf(w1, 0) == Exiting(0, false);
    SecondClient(w1);
  }

  lemma SecondClient(w: World)
    requires w.cached == None && w.lock == None && w.status == [Closing] && w.served == [0]
    requires PcOf(w, 0) == Exiting(0, false) && PcOf(w, 3) == Idle && PcOf(w, 4) == Idle
    ensures var w' := Next(Next(Next(Next(w, GetClient(3)), LockAcquired(3)), ClientCreated(3)), GetClient(4));
            ExitInFlight(w', 0) && w'.served == [0, 1, 1] && w'.status == [Closing, Open] && w'.cached == Some(1)
  {
    var w2 := Next(Next(w, GetClient(3)), LockAcquired(3));
    assert PcOf(w2, 3) == Creating && w2.cached == None && PcOf(w2, 0) == PcOf(w, 0) && PcOf(w2, 4) == Idle;
    assert w2.status == w.status && w2.served == w.served;
    var w3 := Next(w2, ClientCreated(3));
    assert w3.cached == Some(1) && w3.served == [0, 1] && w3.status == [Closing, Open];
    var w4 := Next(w3, GetClient(4));
    assert PcOf(w4, 0) == Exiting(0, false);
    assert w4.served == [0, 1] + [1];
  }

  lemma OneClientOpened()
    ensures Run(INIT, [GetClient(0)] + [LockAcquired(0)] + [ClientCreated(0)]) ==
            World(map[0 := Idle], None, Some(0), [0], [Open], [], [0], false)
  {
    RunSnoc([], GetClient(0));
    assert [] + [GetClient(0)] == [GetClient(0)];
    RunSnoc([GetClient(0)], LockAcquired(0));
    RunSnoc([GetClient(0)] + [LockAcquired(0)], ClientCreated(0));
    assert Run(INIT, [GetClient(0)]) == World(map[0 := AtLock], None, None, [], [], [], [], false);
    hide Run;
    assert map[0 := AtLock][0 := Creating] == map[0 := Creating];
    assert map[0 := Creating][0 := Idle] == map[0 := Idle];
  }
}
