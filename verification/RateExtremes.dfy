/** The bounds of the limiter are reached: twice the limit over one window length, and one limit for every
    start of a window's counter. */
module RateExtremes {
  import opened Wrappers
  import opened Division
  import opened FixedWindow
  import opened RateBounds

  function Single(count: nat, window: nat): Config {
    Config(map[("t", "e") := Limit(count, window)], true)
  }

  /** One undisturbed request of task 0; the last step does nothing when the INCR was not first. */
  const ONE_REQUEST: seq<Step> := [Begin(0, "t", "e"), IncrReplies(0), ExpireReplies(0)]

  function Burst(n: nat): seq<Step> {
    if n == 0 then [] else Burst(n - 1) + ONE_REQUEST
  }

  lemma {:induction false} RunAppend(cfg: Config, w: World, s: seq<Step>, s': seq<Step>)
    ensures RunFrom(cfg, w, s + s') == RunFrom(cfg, RunFrom(cfg, w, s), s')
  {
    if s' == [] {
      assert s + s' == s;
    } else {
      hide Next;
      var front := s'[..|s'| - 1];
      RunAppend(cfg, w, s, front);
      assert (s + s')[..|s + s'| - 1] == s + front;
    }
  }

  lemma ThreeSteps(cfg: Config, w: World, a: Step, b: Step, c: Step)
    ensures RunFrom(cfg, w, [a, b, c]) == Next(cfg, Next(cfg, Next(cfg, w, a), b), c)
  {
    hide Next;
    assert [a, b, c][..2] == [a, b] && [a, b][..1] == [a] && [a][..0] == [];
    assert RunFrom(cfg, w, []) == w;
    assert RunFrom(cfg, w, [a]) == Next(cfg, w, a);
    assert RunFrom(cfg, w, [a, b]) == Next(cfg, Next(cfg, w, a), b);
  }

  /** What `n` requests of one window log, one after the other and all at one instant. */
  function Counting(req: Request, time: nat, n: nat): seq<Incr> {
    seq(n, i requires 0 <= i < n => Incr(req, time, i + 1))
  }

  function AcceptedTimes(req: Request, n: nat): seq<Response> {
    seq(n, i requires 0 <= i < n => Response(req, Accepted))
  }

  ghost predicate CounterIs(w: World, key: string, n: nat, expiry: nat) {
    if n == 0 then key !in w.counters else key in w.counters && w.counters[key] == Counter(n, Some(expiry))
  }

  /** `n` requests of task 0 for `req` have come and gone between `w` and `w'`, all let through. */
  ghost predicate Passing(cfg: Config, w: World, w': World, req: Request, n: nat)
    requires Known(cfg, req)
  {
    && PcOf(w', 0) == Idle && w'.now == w.now == req.at
    && CounterIs(w', KeyOf(cfg, req), n, req.at + LimitOf(cfg, req).window)
    && w'.counters.Keys <= w.counters.Keys + {KeyOf(cfg, req)}
    && w'.incrs == w.incrs + Counting(req, req.at, n)
    && w'.responses == w.responses + AcceptedTimes(req, n) && w'.errors == w.errors
  }

  lemma FirstRequestPasses(cfg: Config, w: World, t: Task, req: Request, key: string)
    requires Known(cfg, req) && key == KeyOf(cfg, req) && LimitOf(cfg, req).count >= 1
    requires PcOf(w, t) == AtIncr(req) && !Live(w.counters, key, w.now)
    ensures var w' := Next(cfg, Next(cfg, w, IncrReplies(t)), ExpireReplies(t));
            && w'.pcs == w.pcs[t := Idle] && w'.now == w.now && w'.incrs == w.incrs + [Incr(req, w.now, 1)]
            && w'.counters == w.counters[key := Counter(1, Some(w.now + LimitOf(cfg, req).window))]
            && w'.responses == w.responses + [Response(req, Accepted)] && w'.errors == w.errors
  {
    hide KeyOf, RetryAfter;
    var w1 := Next(cfg, w, IncrReplies(t));
    assert w1.incrs == w.incrs + [Incr(req, w.now, 1)] && PcOf(w1, t) == AtExpire(req, |w.incrs|);
    assert w1.pcs == w.pcs[t := AtExpire(req, |w.incrs|)];
    assert w1.counters == w.counters[key := Counter(1, None)] && w1.now == w.now;
    assert w1.responses == w.responses && w1.errors == w.errors;
    hide Incremented;
    var w2 := Next(cfg, w1, ExpireReplies(t));
    assert Live(w1.counters, key, w1.now);
    assert w2.counters == w.counters[key := Counter(1, Some(w.now + LimitOf(cfg, req).window))];
  }

  lemma LaterRequestPasses(cfg: Config, w: World, t: Task, req: Request, key: string, n: nat)
    requires Known(cfg, req) && key == KeyOf(cfg, req) && 1 <= n < LimitOf(cfg, req).count
    requires PcOf(w, t) == AtIncr(req) && Live(w.counters, key, w.now) && w.counters[key].value == n
    ensures var w' := Next(cfg, Next(cfg, w, IncrReplies(t)), ExpireReplies(t));
            && w'.pcs == w.pcs[t := Idle] && w'.now == w.now && w'.incrs == w.incrs + [Incr(req, w.now, n + 1)]
            && w'.counters == w.counters[key := Counter(n + 1, w.counters[key].expiry)]
            && w'.responses == w.responses + [Response(req, Accepted)] && w'.errors == w.errors
  {
    hide KeyOf, RetryAfter;
    var w1 := Next(cfg, w, IncrReplies(t));
    assert PcOf(w1, t) == Idle;
    assert Next(cfg, w1, ExpireReplies(t)) == w1;
  }

  lemma CountingSnoc(incrs: seq<Incr>, responses: seq<Response>, req: Request, time: nat, n: nat)
    ensures incrs + Counting(req, time, n + 1) == incrs + Counting(req, time, n) + [Incr(req, time, n + 1)]
    ensures responses + AcceptedTimes(req, n + 1) == responses + AcceptedTimes(req, n) + [Response(req, Accepted)]
  {
    assert Counting(req, time, n + 1) == Counting(req, time, n) + [Incr(req, time, n + 1)];
    assert AcceptedTimes(req, n + 1) == AcceptedTimes(req, n) + [Response(req, Accepted)];
  }

  lemma RequestPasses(cfg: Config, w0: World, w: World, n: nat, req: Request)
    requires ValidConfig(cfg) && Known(cfg, req) && Passing(cfg, w0, w, req, n)
    requires req.tenant == "t" && req.endpoint == "e" && n < LimitOf(cfg, req).count
    ensures Passing(cfg, w0, RunFrom(cfg, w, ONE_REQUEST), req, n + 1)
  {
    hide RunFrom, KeyOf, Counting, AcceptedTimes, ValidConfig;
    ThreeSteps(cfg, w, ONE_REQUEST[0], ONE_REQUEST[1], ONE_REQUEST[2]);
    var key := KeyOf(cfg, req);
    var w1 := Next(cfg, w, ONE_REQUEST[0]);
    assert w1 == w.(pcs := w.pcs[0 := AtIncr(req)]);
    hide Enabled, Next;
    if n == 0 {
      FirstRequestPasses(cfg, w1, 0, req, key);
    } else {
      LaterRequestPasses(cfg, w1, 0, req, key, n);
    }
    CountingSnoc(w0.incrs, w0.responses, req, req.at, n);
  }

  lemma {:induction false} BurstPasses(cfg: Config, w: World, n: nat, req: Request)
    requires ValidConfig(cfg) && Known(cfg, req) && req == Request("t", "e", w.now)
    requires PcOf(w, 0) == Idle && KeyOf(cfg, req) !in w.counters && n <= LimitOf(cfg, req).count
    ensures Passing(cfg, w, RunFrom(cfg, w, Burst(n)), req, n)
  {
    if n > 0 {
      hide Passing, KeyOf;
      BurstPasses(cfg, w, n - 1, req);
      RunAppend(cfg, w, Burst(n - 1), ONE_REQUEST);
      hide RunFrom;
      RequestPasses(cfg, w, RunFrom(cfg, w, Burst(n - 1)), n - 1, req);
    }
  }

  lemma OneStep(cfg: Config, w: World, a: Step)
    ensures RunFrom(cfg, w, [a]) == Next(cfg, w, a)
  {
    hide Next;
    assert [a][..0] == [];
    assert RunFrom(cfg, w, []) == w;
  }

  /** `count` requests at the last instant of a window, `count` at the next. */
  function TwoBursts(count: nat, window: nat): seq<Step>
    requires window >= 1
  {
    [Tick(window - 1)] + Burst(count) + [Tick(1)] + Burst(count)
  }

  lemma KeysDiffer(count: nat, window: nat)
    requires window >= 2
    ensures var cfg := Single(count, window);
            KeyOf(cfg, Request("t", "e", window - 1)) != KeyOf(cfg, Request("t", "e", window))
  {
    QuotientUnique(window - 1, 0, window);
    QuotientUnique(window, 1, window);
    hide KeyOf, Quotient;
    SameKeySameWindow(Single(count, window), Request("t", "e", window - 1), Request("t", "e", window));
  }

  lemma SecondBurstPasses(cfg: Config, w: World, w': World, r: Request, r': Request, n: nat)
    requires ValidConfig(cfg) && Known(cfg, r) && Known(cfg, r') && KeyOf(cfg, r) != KeyOf(cfg, r')
    requires w.counters == map[] && Passing(cfg, w, w', r, n)
    requires r' == Request("t", "e", w'.now + 1) && n <= LimitOf(cfg, r').count
    ensures var w3 := Next(cfg, w', Tick(1));
            var w4 := RunFrom(cfg, w3, Burst(n));
            && w4.incrs == w'.incrs + Counting(r', r'.at, n) && w4.errors == w'.errors
            && w4.responses == w'.responses + AcceptedTimes(r', n)
  {
    hide KeyOf, RunFrom, Burst;
    var w3 := Next(cfg, w', Tick(1));
    assert w3 == w'.(now := w'.now + 1);
    hide Next;
    BurstPasses(cfg, w3, n, r');
  }

  lemma TwoBurstsRun(cfg: Config, count: nat, window: nat)
    requires window >= 1
    ensures var w1 := Next(cfg, INIT, Tick(window - 1));
            var w3 := Next(cfg, RunFrom(cfg, w1, Burst(count)), Tick(1));
            Run(cfg, TwoBursts(count, window)) == RunFrom(cfg, w3, Burst(count))
  {
    var s1, b := [Tick(window - 1)], Burst(count);
    hide Burst, Next;
    RunAppend(cfg, INIT, s1 + b + [Tick(1)], b);
    RunAppend(cfg, INIT, s1 + b, [Tick(1)]);
    RunAppend(cfg, INIT, s1, b);
    OneStep(cfg, INIT, Tick(window - 1));
    OneStep(cfg, RunFrom(cfg, Next(cfg, INIT, Tick(window - 1)), b), Tick(1));
  }

  lemma TwoBurstsPass(count: nat, window: nat)
    requires window >= 2
    ensures var (w, r, r') := (Run(Single(count, window), TwoBursts(count, window)),
                               Request("t", "e", window - 1), Request("t", "e", window));
            && w.incrs == Counting(r, r.at, count) + Counting(r', r'.at, count) && w.errors == []
            && w.responses == AcceptedTimes(r, count) + AcceptedTimes(r', count)
  {
    var cfg := Single(count, window);
    var r, r' := Request("t", "e", window - 1), Request("t", "e", window);
    var w1 := Next(cfg, INIT, Tick(window - 1));
    assert w1 == INIT.(now := window - 1);
    TwoBurstsRun(cfg, count, window);
    KeysDiffer(count, window);
    hide KeyOf, RunFrom, TwoBursts, Burst, Next, Run, Counting, AcceptedTimes;
    assert Known(cfg, r) && Known(cfg, r') && ValidConfig(cfg);
    BurstPasses(cfg, w1, count, r);
    var w2 := RunFrom(cfg, w1, Burst(count));
    SecondBurstPasses(cfg, w1, w2, r, r', count);
    assert [] + Counting(r, r.at, count) == Counting(r, r.at, count);
    assert [] + AcceptedTimes(r, count) == AcceptedTimes(r, count);
  }

  lemma {:induction false} AllAccepted(responses: seq<Response>, sel: Selection)
    requires forall i | 0 <= i < |responses| :: responses[i].verdict == Accepted && sel(responses[i].req)
    ensures AcceptedWhere(responses, sel) == |responses|
  {
    if responses != [] {
      AllAccepted(responses[..|responses| - 1], sel);
    }
  }

  lemma {:induction false} NoneLate(cfg: Config, incrs: seq<Incr>, sel: Selection)
    requires forall i | 0 <= i < |incrs| :: Known(cfg, incrs[i].req) && incrs[i].time == incrs[i].req.at
    ensures LateWhere(cfg, incrs, sel) == 0
  {
    if incrs != [] {
      WindowContains(cfg, incrs[|incrs| - 1].req);
      NoneLate(cfg, incrs[..|incrs| - 1], sel);
    }
  }

  /** Twice the limit within one window length is reached, for every limit and every window of at
      least two instants, with Redis answering and every INCR in its window. */
  lemma TwiceTheLimitIsReached(count: nat, window: nat, sel: Selection)
    requires window >= 2
    ensures var (cfg, w) := (Single(count, window), Run(Single(count, window), TwoBursts(count, window)));
            && AcceptedWhere(w.responses, InInterval("t", "e", window - 1, window)) == 2 * count
            && LateWhere(cfg, w.incrs, sel) == 0 && w.errors == []
  {
    TwoBurstsPass(count, window);
    hide Run, TwoBursts;
    var cfg, w := Single(count, window), Run(Single(count, window), TwoBursts(count, window));
    AllAccepted(w.responses, InInterval("t", "e", window - 1, window));
    NoneLate(cfg, w.incrs, sel);
  }

  // --- Held-up requests ----------------------------------------------

  /** Tasks 0 to n - 1 read the clock. */
  function Begins(n: nat): seq<Step> {
    if n == 0 then [] else Begins(n - 1) + [Begin(n - 1, "t", "e")]
  }

  /** `n` tasks from `m` on are served, one after the other and all at one instant. */
  function Serve(m: nat, n: nat): seq<Step> {
    if n == 0 then [] else Serve(m, n - 1) + [IncrReplies(m + n - 1)] + [ExpireReplies(m + n - 1)]
  }

  /** `rounds` times: `count` tasks are served, then their window's length passes. */
  function Rounds(count: nat, window: nat, rounds: nat): seq<Step> {
    if rounds == 0 then []
    else Rounds(count, window, rounds - 1) + Serve(count * (rounds - 1), count) + [Tick(window)]
  }

  /** All requests read the clock in the first window; all but the first `count` INCRs are late. */
  function HeldUp(count: nat, window: nat, rounds: nat): seq<Step> {
    Begins(count * rounds) + Rounds(count, window, rounds)
  }

  ghost predicate Waiting(w: World, req: Request, m: nat, total: nat) {
    forall t: Task | m <= t < total :: PcOf(w, t) == AtIncr(req)
  }

  lemma BeginOne(cfg: Config, w: World, t: Task)
    requires Known(cfg, Request("t", "e", w.now)) && PcOf(w, t) == Idle
    ensures Next(cfg, w, Begin(t, "t", "e")) == w.(pcs := w.pcs[t := AtIncr(Request("t", "e", w.now))])
  {
  }

  ghost predicate AllBegun(w: World, n: nat) {
    && w == INIT.(pcs := w.pcs) && Waiting(w, Request("t", "e", 0), 0, n)
    && forall t: Task | t >= n :: PcOf(w, t) == Idle
  }

  lemma OneMoreBegun(w: World, n: nat)
    requires AllBegun(w, n)
    ensures AllBegun(w.(pcs := w.pcs[n := AtIncr(Request("t", "e", w.now))]), n + 1)
  {
    var w' := w.(pcs := w.pcs[n := AtIncr(Request("t", "e", w.now))]);
    assert w.now == 0;
    assert PcOf(w', n) == AtIncr(Request("t", "e", 0)) && forall t: Task | t != n :: PcOf(w', t) == PcOf(w, t);
  }

  lemma BegunIsIdle(w: World, n: nat)
    requires AllBegun(w, n)
    ensures PcOf(w, n) == Idle && w.now == 0
  {
  }

  lemma BeginsRun(cfg: Config, n: nat)
    requires n > 0
    ensures RunFrom(cfg, INIT, Begins(n)) == Next(cfg, RunFrom(cfg, INIT, Begins(n - 1)), Begin(n - 1, "t", "e"))
  {
    hide Next, RunFrom;
    RunAppend(cfg, INIT, Begins(n - 1), [Begin(n - 1, "t", "e")]);
    OneStep(cfg, RunFrom(cfg, INIT, Begins(n - 1)), Begin(n - 1, "t", "e"));
  }

  lemma {:induction false} AllBegin(cfg: Config, n: nat)
    requires Known(cfg, Request("t", "e", 0))
    ensures AllBegun(RunFrom(cfg, INIT, Begins(n)), n)
  {
    hide Next, AllBegun;
    if n == 0 {
      NoneBegun();
    } else {
      hide RunFrom, PcOf, Begins;
      AllBegin(cfg, n - 1);
      BeginsRun(cfg, n);
      var v := RunFrom(cfg, INIT, Begins(n - 1));
      BegunIsIdle(v, n - 1);
      BeginOne(cfg, v, n - 1);
      OneMoreBegun(v, n - 1);
    }
  }

  lemma NoneBegun()
    ensures AllBegun(INIT, 0)
  {
  }

  /** `n` tasks from `m` on have been served between `w` and `w'`. */
  ghost predicate Served(cfg: Config, w: World, w': World, req: Request, m: nat, n: nat)
    requires Known(cfg, req)
  {
    && w'.now == w.now && w'.errors == w.errors
    && w'.incrs == w.incrs + Counting(req, w.now, n)
    && w'.responses == w.responses + AcceptedTimes(req, n)
    && (forall t: Task | !(m <= t < m + n) :: PcOf(w', t) == PcOf(w, t))
    && (n > 0 ==> KeyOf(cfg, req) in w'.counters
                  && w'.counters[KeyOf(cfg, req)] == Counter(n, Some(w.now + LimitOf(cfg, req).window)))
    && (n == 0 ==> w'.counters == w.counters)
  }

  lemma ServeOne(cfg: Config, w0: World, w: World, req: Request, m: nat, n: nat)
    requires Known(cfg, req) && Served(cfg, w0, w, req, m, n) && n < LimitOf(cfg, req).count
    requires !Live(w0.counters, KeyOf(cfg, req), w0.now) && PcOf(w, m + n) == AtIncr(req)
    ensures Served(cfg, w0, Next(cfg, Next(cfg, w, IncrReplies(m + n)), ExpireReplies(m + n)), req, m, n + 1)
  {
    hide KeyOf, Next, Counting, AcceptedTimes;
    var key := KeyOf(cfg, req);
    if n == 0 {
      FirstRequestPasses(cfg, w, m + n, req, key);
    } else {
      LaterRequestPasses(cfg, w, m + n, req, key, n);
    }
    CountingSnoc(w0.incrs, w0.responses, req, w0.now, n);
  }

  lemma NoneServed(cfg: Config, w: World, req: Request, m: nat)
    requires Known(cfg, req)
    ensures Served(cfg, w, w, req, m, 0)
  {
    hide KeyOf;
    assert w.incrs + [] == w.incrs && w.responses + [] == w.responses;
  }

  lemma StillWaiting(cfg: Config, w: World, w': World, req: Request, m: nat, n: nat)
    requires Known(cfg, req) && Served(cfg, w, w', req, m, n) && Waiting(w, req, m, m + n + 1)
    ensures PcOf(w', m + n) == AtIncr(req)
  {
    hide KeyOf, Counting, AcceptedTimes;
  }

  lemma {:induction false} AllServed(cfg: Config, w: World, req: Request, m: nat, n: nat)
    requires Known(cfg, req) && n <= LimitOf(cfg, req).count
    requires !Live(w.counters, KeyOf(cfg, req), w.now) && Waiting(w, req, m, m + n)
    ensures Served(cfg, w, RunFrom(cfg, w, Serve(m, n)), req, m, n)
  {
    if n == 0 {
      hide Next, Served, Live, KeyOf, Waiting;
      NoneServed(cfg, w, req, m);
    } else {
      hide Next, KeyOf, Served, Live, RunFrom, PcOf;
      AllServed(cfg, w, req, m, n - 1);
      var s, t := Serve(m, n - 1), m + n - 1;
      var v := RunFrom(cfg, w, s);
      RunAppend(cfg, w, s, [IncrReplies(t)]);
      RunAppend(cfg, w, s + [IncrReplies(t)], [ExpireReplies(t)]);
      OneStep(cfg, v, IncrReplies(t));
      OneStep(cfg, Next(cfg, v, IncrReplies(t)), ExpireReplies(t));
      StillWaiting(cfg, w, v, req, m, n - 1);
      ServeOne(cfg, w, v, req, m, n - 1);
    }
  }

  lemma {:induction false} CountingAddsStart(incrs: seq<Incr>, req: Request, time: nat, n: nat, sel: Selection)
    requires sel(req)
    ensures StartsWhere(incrs + Counting(req, time, n), sel) == StartsWhere(incrs, sel) + if n > 0 then 1 else 0
  {
    var all := incrs + Counting(req, time, n);
    if n == 0 {
      assert all == incrs;
    } else {
      assert all[..|all| - 1] == incrs + Counting(req, time, n - 1);
      CountingAddsStart(incrs, req, time, n - 1, sel);
    }
  }

  lemma {:induction false} CountingAddsLate(cfg: Config, incrs: seq<Incr>, req: Request, time: nat, n: nat,
                                            sel: Selection)
    requires Known(cfg, req) && sel(req)
    ensures LateWhere(cfg, incrs + Counting(req, time, n), sel) ==
            LateWhere(cfg, incrs, sel) + if time >= WindowEnd(cfg, req) then n else 0
  {
    hide WindowEnd;
    var all := incrs + Counting(req, time, n);
    if n == 0 {
      assert all == incrs;
    } else {
      assert all[..|all| - 1] == incrs + Counting(req, time, n - 1);
      CountingAddsLate(cfg, incrs, req, time, n - 1, sel);
    }
  }

  /** After some rounds: `done` tasks are served and the others wait, and no counter is live. */
  ghost predicate AfterRounds(cfg: Config, w: World, req: Request, done: nat, total: nat, time: nat,
                              starts: nat, late: nat)
    requires Known(cfg, req)
  {
    var sel := InWindow(cfg, req);
    && w.now == time && w.errors == []
    && !Live(w.counters, KeyOf(cfg, req), w.now) && Waiting(w, req, done, total)
    && w.responses == AcceptedTimes(req, done)
    && StartsWhere(w.incrs, sel) == starts && LateWhere(cfg, w.incrs, sel) == late
  }

  lemma TicksOn(cfg: Config, w: World, window: nat)
    ensures Next(cfg, w, Tick(window)) == w.(now := w.now + window)
  {
  }

  lemma AcceptedMore(req: Request, m: nat, n: nat)
    ensures AcceptedTimes(req, m) + AcceptedTimes(req, n) == AcceptedTimes(req, m + n)
  {
  }

  lemma OneRound(cfg: Config, w: World, w': World, req: Request, done: nat, total: nat, time: nat, starts: nat, late: nat)
    requires Known(cfg, req) && req.at == 0 && LimitOf(cfg, req).count >= 1 && done + LimitOf(cfg, req).count <= total
    requires AfterRounds(cfg, w, req, done, total, time, starts, late)
    requires Served(cfg, w, w', req, done, LimitOf(cfg, req).count)
    ensures var limit := LimitOf(cfg, req);
            AfterRounds(cfg, w'.(now := w'.now + limit.window), req, done + limit.count, total, time + limit.window,
                        starts + 1, late + if time >= limit.window then limit.count else 0)
  {
    var limit, sel := LimitOf(cfg, req), InWindow(cfg, req);
    CountingAddsStart(w.incrs, req, w.now, limit.count, sel);
    CountingAddsLate(cfg, w.incrs, req, w.now, limit.count, sel);
    FirstWindowEnds(cfg, req);
    AcceptedMore(req, done, limit.count);
    StillQueued(w, w', req, done, limit.count, total);
    hide KeyOf, WindowEnd, InWindow, StartsWhere, LateWhere, Counting, AcceptedTimes, Waiting;
    var w'' := w'.(now := w'.now + limit.window);
    SameWaiting(w', w'', req, done + limit.count, total);
    assert !Live(w''.counters, KeyOf(cfg, req), w''.now);
  }

  lemma StillQueued(w: World, w': World, req: Request, done: nat, n: nat, total: nat)
    requires Waiting(w, req, done, total)
    requires forall t: Task | !(done <= t < done + n) :: PcOf(w', t) == PcOf(w, t)
    ensures Waiting(w', req, done + n, total)
  {
    hide PcOf;
  }

  lemma SameWaiting(w: World, w': World, req: Request, done: nat, total: nat)
    requires Waiting(w, req, done, total) && w'.pcs == w.pcs
    ensures Waiting(w', req, done, total)
  {
    assert forall t: Task :: PcOf(w', t) == PcOf(w, t);
  }

  lemma FirstWindowEnds(cfg: Config, req: Request)
    requires Known(cfg, req) && req.at == 0
    ensures WindowEnd(cfg, req) == LimitOf(cfg, req).window
  {
    QuotientUnique(0, 0, LimitOf(cfg, req).window);
  }

  lemma NextMultiple(a: nat, n: nat)
    ensures a * (n + 1) == a * n + a
  {
  }

  /** The numbers after `rounds` rounds. */
  ghost predicate RoundsDone(cfg: Config, w: World, req: Request, rounds: nat, total: nat)
    requires Known(cfg, req)
  {
    var limit := LimitOf(cfg, req);
    AfterRounds(cfg, w, req, limit.count * rounds, total, limit.window * rounds, rounds,
                if rounds == 0 then 0 else limit.count * (rounds - 1))
  }

  /** Enough tasks for the rounds. */
  ghost predicate Enough(count: nat, rounds: nat, total: nat) {
    count * rounds <= total
  }

  lemma EnoughBefore(count: nat, rounds: nat, total: nat)
    requires Enough(count, rounds + 1, total)
    ensures Enough(count, rounds, total) && count * rounds + count <= total
  {
    NextMultiple(count, rounds);
  }

  lemma RoundCounts(cfg: Config, w: World, w': World, req: Request, rounds: nat, total: nat)
    requires Known(cfg, req) && req.at == 0 && LimitOf(cfg, req).count >= 1
    requires Enough(LimitOf(cfg, req).count, rounds + 1, total) && RoundsDone(cfg, w, req, rounds, total)
    requires Served(cfg, w, w', req, LimitOf(cfg, req).count * rounds, LimitOf(cfg, req).count)
    ensures RoundsDone(cfg, w'.(now := w'.now + LimitOf(cfg, req).window), req, rounds + 1, total)
  {
    hide AfterRounds, Served, Enough;
    var limit := LimitOf(cfg, req);
    EnoughBefore(limit.count, rounds, total);
    NextMultiple(limit.count, rounds);
    NextMultiple(limit.window, rounds);
    OneRound(cfg, w, w', req, limit.count * rounds, total, limit.window * rounds, rounds,
             if rounds == 0 then 0 else limit.count * (rounds - 1));
    if rounds > 0 {
      NextMultiple(limit.count, rounds - 1);
      NextMultiple(limit.window, rounds - 1);
    }
  }

  lemma LastRound(cfg: Config, w: World, count: nat, window: nat, rounds: nat)
    requires rounds > 0
    ensures var v := RunFrom(cfg, w, Rounds(count, window, rounds - 1));
            var u := RunFrom(cfg, v, Serve(count * (rounds - 1), count));
            RunFrom(cfg, w, Rounds(count, window, rounds)) == u.(now := u.now + window)
  {
    hide Next, Serve, RunFrom;
    var s, serve := Rounds(count, window, rounds - 1), Serve(count * (rounds - 1), count);
    RunAppend(cfg, w, s, serve);
    RunAppend(cfg, w, s + serve, [Tick(window)]);
    var u := RunFrom(cfg, RunFrom(cfg, w, s), serve);
    OneStep(cfg, u, Tick(window));
    TicksOn(cfg, u, window);
  }

  lemma {:induction false} RoundsRun(cfg: Config, w: World, count: nat, window: nat, rounds: nat, total: nat)
    requires count >= 1 && window >= 1 && cfg == Single(count, window) && Enough(count, rounds, total)
    requires RoundsDone(cfg, w, Request("t", "e", 0), 0, total)
    ensures RoundsDone(cfg, RunFrom(cfg, w, Rounds(count, window, rounds)), Request("t", "e", 0), rounds, total)
  {
    hide RunFrom, Rounds, RoundsDone, Enough, Serve, Single, Next;
    if rounds == 0 {
      NoRounds(cfg, w, count, window);
    } else {
      var before := rounds - 1;
      EnoughBefore(count, before, total);
      RoundsRun(cfg, w, count, window, before, total);
      LastRound(cfg, w, count, window, rounds);
      OneMoreRound(cfg, RunFrom(cfg, w, Rounds(count, window, before)), count, window, before, total);
    }
  }

  lemma NoRounds(cfg: Config, w: World, count: nat, window: nat)
    ensures RunFrom(cfg, w, Rounds(count, window, 0)) == w
  {
  }

  lemma OneMoreRound(cfg: Config, w: World, count: nat, window: nat, rounds: nat, total: nat)
    requires count >= 1 && window >= 1 && cfg == Single(count, window) && Enough(count, rounds + 1, total)
    requires RoundsDone(cfg, w, Request("t", "e", 0), rounds, total)
    ensures var u := RunFrom(cfg, w, Serve(count * rounds, count));
            RoundsDone(cfg, u.(now := u.now + window), Request("t", "e", 0), rounds + 1, total)
  {
    hide KeyOf, Next, RoundsDone, Serve, Served, Enough, RunFrom;
    var req := Request("t", "e", 0);
    RoundServed(cfg, w, req, rounds, total);
    RoundCounts(cfg, w, RunFrom(cfg, w, Serve(count * rounds, count)), req, rounds, total);
  }

  lemma RoundServed(cfg: Config, w: World, req: Request, rounds: nat, total: nat)
    requires Known(cfg, req) && RoundsDone(cfg, w, req, rounds, total)
    requires Enough(LimitOf(cfg, req).count, rounds + 1, total)
    ensures var count := LimitOf(cfg, req).count;
            Served(cfg, w, RunFrom(cfg, w, Serve(count * rounds, count)), req, count * rounds, count)
  {
    hide KeyOf, Next, RunFrom, Serve, Served, StartsWhere, LateWhere, InWindow, Enough;
    EnoughBefore(LimitOf(cfg, req).count, rounds, total);
    AllServed(cfg, w, req, LimitOf(cfg, req).count * rounds, LimitOf(cfg, req).count);
  }

  /** Every start of the counter can let `count` through: for every limit, window and number of starts there
      is a run without errors in which requests of one window are accepted `count` times as often as its
      counter starts.  All INCRs but the first `count` are late, so the other bound is reached as well. */
  lemma StartsReachBound(count: nat, window: nat, starts: nat)
    requires count >= 1 && window >= 1 && starts >= 1
    ensures var (cfg, req) := (Single(count, window), Request("t", "e", 0));
            var (w, sel) := (Run(cfg, HeldUp(count, window, starts)), InWindow(cfg, req));
            && w.errors == [] && StartsWhere(w.incrs, sel) == starts
            && AcceptedWhere(w.responses, sel) == count * StartsWhere(w.incrs, sel)
            && AcceptedWhere(w.responses, sel) == count + LateWhere(cfg, w.incrs, sel)
  {
    hide RunFrom, Next, KeyOf, Begins, Rounds, StartsWhere, LateWhere, RoundsDone, AllBegun;
    var cfg, req, total := Single(count, window), Request("t", "e", 0), count * starts;
    var w := RunFrom(cfg, INIT, Begins(total));
    AllBegin(cfg, total);
    NothingYet(cfg, w, req, total);
    RunAppend(cfg, INIT, Begins(total), Rounds(count, window, starts));
    RoundsRun(cfg, w, count, window, starts, total);
    RoundsMean(cfg, RunFrom(cfg, w, Rounds(count, window, starts)), req, starts, total);
    AllAccepted(AcceptedTimes(req, total), InWindow(cfg, req));
    NextMultiple(count, starts - 1);
  }

  lemma RoundsMean(cfg: Config, w: World, req: Request, rounds: nat, total: nat)
    requires Known(cfg, req) && RoundsDone(cfg, w, req, rounds, total) && rounds >= 1
    ensures var (count, sel) := (LimitOf(cfg, req).count, InWindow(cfg, req));
            && w.errors == [] && w.responses == AcceptedTimes(req, count * rounds)
            && StartsWhere(w.incrs, sel) == rounds && LateWhere(cfg, w.incrs, sel) == count * (rounds - 1)
  {
    hide KeyOf, StartsWhere, LateWhere, Waiting, AcceptedTimes;
  }

  lemma NothingYet(cfg: Config, w: World, req: Request, total: nat)
    requires Known(cfg, req) && req == Request("t", "e", 0) && AllBegun(w, total)
    ensures RoundsDone(cfg, w, req, 0, total)
  {
    hide KeyOf;
    assert AcceptedTimes(req, LimitOf(cfg, req).count * 0) == [];
  }
}
