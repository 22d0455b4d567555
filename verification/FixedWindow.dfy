/** The fixed-window limiter as a step machine: any number of concurrent requests, each reading the
    clock, then sending INCR, then EXPIRE when it was first; every command may fail before or after
    taking effect. */
module FixedWindow {
  import opened Wrappers
  import opened Division
  import opened RateSpec

  type Task = nat

  /** One request against a limited endpoint; `at` is the clock it read. */
  datatype Request = Request(tenant: string, endpoint: string, at: nat)

  datatype Limit = Limit(count: nat, window: nat)

  datatype Config = Config(limits: map<(string, string), Limit>, failOpen: bool)

  datatype Counter = Counter(value: nat, expiry: Option<nat>)

  /** An INCR that took effect: for which request, when, and the value it returned. */
  datatype Incr = Incr(req: Request, time: nat, value: nat)

  /** What the caller gets: the request goes on, 429 with a wait, or 503. */
  datatype Verdict = Accepted | Limited(retryAfter: nat) | Unavailable

  datatype Response = Response(req: Request, verdict: Verdict)

  datatype Pc =
    | Idle
    | AtIncr(req: Request)
    | AtExpire(req: Request, incr: nat) // its INCR, an index into the log, returned 1

  datatype World = World(
    now: nat,
    counters: map<string, Counter>,
    pcs: map<Task, Pc>,
    incrs: seq<Incr>,         // every INCR that took effect, in order
    responses: seq<Response>, // every verdict given, in order
    // history
    admitted: set<nat>,       // the INCRs whose reply was compared with the limit and let through
    limited: set<nat>,        // the INCRs whose reply was compared with the limit and refused
    errors: seq<Request>)     // the requests that met a Redis error, in order

  const INIT := World(0, map[], map[], [], [], {}, {}, [])

  datatype Step =
    | Tick(duration: nat)
    | Begin(t: Task, tenant: string, endpoint: string)
    | IncrReplies(t: Task)
    | IncrReplyLost(t: Task)
    | IncrFails(t: Task)
    | ExpireReplies(t: Task)
    | ExpireReplyLost(t: Task)
    | ExpireFails(t: Task)

  ghost predicate ValidConfig(cfg: Config) {
    forall p | p in cfg.limits :: cfg.limits[p].window >= 1 && ':' !in p.1
  }

  // --- Windows -------------------------------------------------------

  predicate Known(cfg: Config, req: Request) {
    (req.tenant, req.endpoint) in cfg.limits && cfg.limits[(req.tenant, req.endpoint)].window >= 1
  }

  function LimitOf(cfg: Config, req: Request): Limit
    requires Known(cfg, req)
  {
    cfg.limits[(req.tenant, req.endpoint)]
  }

  function Bucket(cfg: Config, req: Request): nat
    requires Known(cfg, req)
  {
    Quotient(req.at, LimitOf(cfg, req).window)
  }

  /** The first instant after the request's window. */
  function WindowEnd(cfg: Config, req: Request): nat
    requires Known(cfg, req)
  {
    (Bucket(cfg, req) + 1) * LimitOf(cfg, req).window
  }

  function KeyOf(cfg: Config, req: Request): string
    requires Known(cfg, req)
  {
    WindowKey(req.tenant, req.endpoint, Bucket(cfg, req))
  }

  ghost predicate SameWindow(cfg: Config, r: Request, r': Request)
    requires Known(cfg, r) && Known(cfg, r')
  {
    r.tenant == r'.tenant && r.endpoint == r'.endpoint && Bucket(cfg, r) == Bucket(cfg, r')
  }

  lemma SameKeySameWindow(cfg: Config, r: Request, r': Request)
    requires ValidConfig(cfg) && Known(cfg, r) && Known(cfg, r')
    ensures KeyOf(cfg, r) == KeyOf(cfg, r') <==> SameWindow(cfg, r, r')
    ensures SameWindow(cfg, r, r') ==> WindowEnd(cfg, r) == WindowEnd(cfg, r')
  {
    if KeyOf(cfg, r) == KeyOf(cfg, r') {
      WindowKeyInjective(r.tenant, r.endpoint, Bucket(cfg, r), r'.tenant, r'.endpoint, Bucket(cfg, r'));
    }
  }

  /** A window contains the instant at which its request read the clock. */
  lemma WindowContains(cfg: Config, req: Request)
    requires Known(cfg, req)
    ensures Bucket(cfg, req) * LimitOf(cfg, req).window <= req.at < WindowEnd(cfg, req)
    ensures WindowEnd(cfg, req) <= req.at + LimitOf(cfg, req).window
  {
    var window, b := LimitOf(cfg, req).window, Bucket(cfg, req);
    assert (b + 1) * window == b * window + window;
  }

  // --- Redis ---------------------------------------------------------

  predicate Live(counters: map<string, Counter>, key: string, now: nat) {
    key in counters && (counters[key].expiry.Some? ==> now < counters[key].expiry.value)
  }

  /** INCR: starts again at 1 when the key is absent or expired, else keeps the expiry. */
  function Incremented(counters: map<string, Counter>, key: string, now: nat): map<string, Counter> {
    if Live(counters, key, now) then counters[key := Counter(counters[key].value + 1, counters[key].expiry)]
    else counters[key := Counter(1, None)]
  }

  /** EXPIRE: nothing happens when the key is gone. */
  function Expiring(counters: map<string, Counter>, key: string, now: nat, window: nat): map<string, Counter> {
    if Live(counters, key, now) then counters[key := counters[key].(expiry := Some(now + window))] else counters
  }

  // --- Steps ---------------------------------------------------------

  function PcOf(w: World, t: Task): Pc {
    if t in w.pcs then w.pcs[t] else Idle
  }

  predicate Enabled(cfg: Config, w: World, step: Step) {
    match step
    case Tick(_) => true
    case Begin(t, tenant, endpoint) => PcOf(w, t).Idle? && Known(cfg, Request(tenant, endpoint, w.now))
    case IncrReplies(t) => PcOf(w, t).AtIncr? && Known(cfg, PcOf(w, t).req)
    case IncrReplyLost(t) => PcOf(w, t).AtIncr? && Known(cfg, PcOf(w, t).req)
    case IncrFails(t) => PcOf(w, t).AtIncr?
    case ExpireReplies(t) => PcOf(w, t).AtExpire? && Known(cfg, PcOf(w, t).req)
    case ExpireReplyLost(t) => PcOf(w, t).AtExpire? && Known(cfg, PcOf(w, t).req)
    case ExpireFails(t) => PcOf(w, t).AtExpire?
  }

  function RetryAfter(window: nat, now: nat): nat
    requires window >= 1
  {
    var left := window - now % window;
    if left > 1 then left else 1
  }

  /** `if current > count`: the request of INCR `i` is refused, else let through. */
  function Decide(cfg: Config, w: World, t: Task, req: Request, i: nat, current: nat): World
    requires Known(cfg, req)
  {
    var limit := LimitOf(cfg, req);
    var w' := w.(pcs := w.pcs[t := Idle]);
    if current > limit.count then
      w'.(limited := w.limited + {i}, responses := w.responses + [Response(req, Limited(RetryAfter(limit.window, req.at)))])
    else
      w'.(admitted := w.admitted + {i}, responses := w.responses + [Response(req, Accepted)])
  }

  function ApplyIncr(cfg: Config, w: World, req: Request): World
    requires Known(cfg, req)
  {
    var key := KeyOf(cfg, req);
    var counters := Incremented(w.counters, key, w.now);
    w.(counters := counters, incrs := w.incrs + [Incr(req, w.now, counters[key].value)])
  }

  /** A Redis error: let through when failing open, 503 otherwise. */
  function Error(cfg: Config, w: World, t: Task, req: Request): World {
    w.(pcs := w.pcs[t := Idle], errors := w.errors + [req],
       responses := w.responses + [Response(req, if cfg.failOpen then Accepted else Unavailable)])
  }

  function Next(cfg: Config, w: World, step: Step): World {
    if !Enabled(cfg, w, step) then w
    else
      match step
      case Tick(duration) => w.(now := w.now + duration)
      case Begin(t, tenant, endpoint) => w.(pcs := w.pcs[t := AtIncr(Request(tenant, endpoint, w.now))])
      case IncrReplies(t) =>
        var req := PcOf(w, t).req;
        var w' := ApplyIncr(cfg, w, req);
        var i, current := |w.incrs|, w'.incrs[|w.incrs|].value;
        if current == 1 then w'.(pcs := w.pcs[t := AtExpire(req, i)])
        else Decide(cfg, w', t, req, i, current)
      case IncrReplyLost(t) =>
        Error(cfg, ApplyIncr(cfg, w, PcOf(w, t).req), t, PcOf(w, t).req)
      case IncrFails(t) =>
        Error(cfg, w, t, PcOf(w, t).req)
      case ExpireReplies(t) =>
        var req := PcOf(w, t).req;
        var w' := w.(counters := Expiring(w.counters, KeyOf(cfg, req), w.now, LimitOf(cfg, req).window));
        Decide(cfg, w', t, req, PcOf(w, t).incr, 1)
      case ExpireReplyLost(t) =>
        var req := PcOf(w, t).req;
        Error(cfg, w.(counters := Expiring(w.counters, KeyOf(cfg, req), w.now, LimitOf(cfg, req).window)), t, req)
      case ExpireFails(t) =>
        Error(cfg, w, t, PcOf(w, t).req)
  }

  /** Steps that are not enabled leave the world unchanged, so every sequence is a run. */
  function RunFrom(cfg: Config, w: World, steps: seq<Step>): World {
    if steps == [] then w
    else Next(cfg, RunFrom(cfg, w, steps[..|steps| - 1]), steps[|steps| - 1])
  }

  function Run(cfg: Config, steps: seq<Step>): World {
    RunFrom(cfg, INIT, steps)
  }

  // --- The counters are exact inside their window --------------------

  /** How many INCRs of the request's window the log holds. */
  ghost function Hits(cfg: Config, incrs: seq<Incr>, req: Request): nat
    requires Known(cfg, req) && forall i | 0 <= i < |incrs| :: Known(cfg, incrs[i].req)
  {
    if incrs == [] then 0
    else Hits(cfg, incrs[..|incrs| - 1], req) + if SameWindow(cfg, incrs[|incrs| - 1].req, req) then 1 else 0
  }

  ghost predicate LogKnown(cfg: Config, w: World) {
    && (forall i | 0 <= i < |w.incrs| :: Known(cfg, w.incrs[i].req) && w.incrs[i].req.at <= w.incrs[i].time <= w.now)
    && (forall t: Task | PcOf(w, t) != Idle :: Known(cfg, PcOf(w, t).req) && PcOf(w, t).req.at <= w.now)
  }

  /** The counter of a window: while the window lasts it holds the number of INCRs; it never expires
      before the window's end. */
  ghost predicate CounterExact(cfg: Config, w: World, req: Request)
    requires LogKnown(cfg, w) && Known(cfg, req)
  {
    var key := KeyOf(cfg, req);
    && (key in w.counters && w.counters[key].expiry.Some? ==> w.counters[key].expiry.value >= WindowEnd(cfg, req))
    && (w.now < WindowEnd(cfg, req) ==>
          if key in w.counters then w.counters[key].value == Hits(cfg, w.incrs, req)
          else Hits(cfg, w.incrs, req) == 0)
  }

  /** The k-th INCR of a window, if sent inside the window, returned k. */
  ghost predicate IncrExact(cfg: Config, w: World, i: nat)
    requires LogKnown(cfg, w) && i < |w.incrs|
  {
    w.incrs[i].time < WindowEnd(cfg, w.incrs[i].req) ==>
      w.incrs[i].value == Hits(cfg, w.incrs[..i], w.incrs[i].req) + 1
  }

  ghost predicate Inv(cfg: Config, w: World) {
    && LogKnown(cfg, w)
    && (forall req: Request | Known(cfg, req) :: CounterExact(cfg, w, req))
    && (forall i | 0 <= i < |w.incrs| :: IncrExact(cfg, w, i))
  }

  lemma ApplyIncrKeepsInv(cfg: Config, w: World, req: Request)
    requires ValidConfig(cfg) && Inv(cfg, w) && Known(cfg, req) && req.at <= w.now
    ensures Inv(cfg, ApplyIncr(cfg, w, req))
  {
    var w' := ApplyIncr(cfg, w, req);
    assert w'.incrs[..|w.incrs|] == w.incrs;
    assert LogKnown(cfg, w') by {
      assert forall t: Task :: PcOf(w', t) == PcOf(w, t);
    }
    forall r: Request | Known(cfg, r)
      ensures CounterExact(cfg, w', r)
    {
      SameKeySameWindow(cfg, r, req);
      assert CounterExact(cfg, w, r);
      hide WindowKey, WindowEnd, Bucket;
    }
    assert CounterExact(cfg, w, req);
    forall i | 0 <= i < |w'.incrs|
      ensures IncrExact(cfg, w', i)
    {
      if i < |w.incrs| {
        assert IncrExact(cfg, w, i);
        assert w'.incrs[..i] == w.incrs[..i];
      }
    }
  }

  lemma ExpiringKeepsInv(cfg: Config, w: World, req: Request)
    requires ValidConfig(cfg) && Inv(cfg, w) && Known(cfg, req) && req.at <= w.now
    ensures Inv(cfg, w.(counters := Expiring(w.counters, KeyOf(cfg, req), w.now, LimitOf(cfg, req).window)))
  {
    var w' := w.(counters := Expiring(w.counters, KeyOf(cfg, req), w.now, LimitOf(cfg, req).window));
    assert LogKnown(cfg, w') by {
      assert forall t: Task :: PcOf(w', t) == PcOf(w, t);
    }
    WindowContains(cfg, req);
    forall r: Request | Known(cfg, r)
      ensures CounterExact(cfg, w', r)
    {
      SameKeySameWindow(cfg, r, req);
      assert CounterExact(cfg, w, r);
      hide WindowKey, WindowEnd, Bucket;
    }
    forall i | 0 <= i < |w'.incrs|
      ensures IncrExact(cfg, w', i)
    {
      assert IncrExact(cfg, w, i);
    }
  }

  /** Steps that touch neither counters nor log. */
  lemma RestKeepsInv(cfg: Config, w: World, w': World)
    requires Inv(cfg, w) && w'.counters == w.counters && w'.incrs == w.incrs && w'.now >= w.now
    requires forall t: Task | PcOf(w', t) != Idle ::
               PcOf(w', t) == PcOf(w, t)
               || (Known(cfg, PcOf(w', t).req) && PcOf(w', t).req.at <= w'.now)
    ensures Inv(cfg, w')
  {
    assert LogKnown(cfg, w');
    forall r: Request | Known(cfg, r)
      ensures CounterExact(cfg, w', r)
    {
      assert CounterExact(cfg, w, r);
    }
    forall i | 0 <= i < |w'.incrs|
      ensures IncrExact(cfg, w', i)
    {
      assert IncrExact(cfg, w, i);
    }
  }

  lemma NextKeepsInv(cfg: Config, w: World, step: Step)
    requires ValidConfig(cfg) && Inv(cfg, w)
    ensures Inv(cfg, Next(cfg, w, step))
  {
    if Enabled(cfg, w, step) {
      var w' := Next(cfg, w, step);
      match step
      case Tick(_) => RestKeepsInv(cfg, w, w');
      case Begin(t, _, _) => RestKeepsInv(cfg, w, w');
      case IncrFails(t) => RestKeepsInv(cfg, w, w');
      case ExpireFails(t) => RestKeepsInv(cfg, w, w');
      case IncrReplies(t) =>
        ApplyIncrKeepsInv(cfg, w, PcOf(w, t).req);
        RestKeepsInv(cfg, ApplyIncr(cfg, w, PcOf(w, t).req), w');
      case IncrReplyLost(t) =>
        ApplyIncrKeepsInv(cfg, w, PcOf(w, t).req);
        RestKeepsInv(cfg, ApplyIncr(cfg, w, PcOf(w, t).req), w');
      case ExpireReplies(t) =>
        ExpiringStep(cfg, w, w', t);
      case ExpireReplyLost(t) =>
        ExpiringStep(cfg, w, w', t);
    }
  }

  lemma ExpiringStep(cfg: Config, w: World, w': World, t: Task)
    requires ValidConfig(cfg) && Inv(cfg, w) && PcOf(w, t).AtExpire? && Known(cfg, PcOf(w, t).req)
    requires var req := PcOf(w, t).req;
             w'.counters == Expiring(w.counters, KeyOf(cfg, req), w.now, LimitOf(cfg, req).window)
    requires w'.now == w.now && w'.incrs == w.incrs && w'.pcs == w.pcs[t := Idle]
    ensures Inv(cfg, w')
  {
    var req := PcOf(w, t).req;
    ExpiringKeepsInv(cfg, w, req);
    hide Expiring;
    RestKeepsInv(cfg, w.(counters := Expiring(w.counters, KeyOf(cfg, req), w.now, LimitOf(cfg, req).window)), w');
  }

  lemma {:induction false} RunKeepsInv(cfg: Config, steps: seq<Step>)
    requires ValidConfig(cfg)
    ensures Inv(cfg, Run(cfg, steps))
  {
    if steps != [] {
      hide Inv, Next;
      RunKeepsInv(cfg, steps[..|steps| - 1]);
      NextKeepsInv(cfg, Run(cfg, steps[..|steps| - 1]), steps[|steps| - 1]);
    }
  }

  /** A counter is never reset inside its own window: while the window lasts, the counter is live and
      counts every INCR of the window. */
  lemma NeverResetInsideWindow(cfg: Config, steps: seq<Step>, req: Request)
    requires ValidConfig(cfg) && Known(cfg, req) && Run(cfg, steps).now < WindowEnd(cfg, req)
    ensures var w := Run(cfg, steps);
            && LogKnown(cfg, w)
            && (if Hits(cfg, w.incrs, req) == 0 then KeyOf(cfg, req) !in w.counters
                else Live(w.counters, KeyOf(cfg, req), w.now)
                     && w.counters[KeyOf(cfg, req)].value == Hits(cfg, w.incrs, req))
  {
    RunKeepsInv(cfg, steps);
    assert CounterExact(cfg, Run(cfg, steps), req);
    CountersPositive(cfg, steps);
  }

  ghost predicate Positive(counters: map<string, Counter>) {
    forall k | k in counters :: counters[k].value > 0
  }

  lemma NextPositive(cfg: Config, w: World, step: Step)
    requires Positive(w.counters)
    ensures Positive(Next(cfg, w, step).counters)
  {
    hide KeyOf, Bucket;
  }

  lemma {:induction false} CountersPositive(cfg: Config, steps: seq<Step>)
    ensures Positive(Run(cfg, steps).counters)
  {
    if steps != [] {
      hide Next, Positive;
      CountersPositive(cfg, steps[..|steps| - 1]);
      NextPositive(cfg, Run(cfg, steps[..|steps| - 1]), steps[|steps| - 1]);
    }
  }
}
