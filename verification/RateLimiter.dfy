/** The limiter itself: one request, start to finish, and what that request is in the step machine. */
module RateLimiter {
  import opened Wrappers
  import opened Division
  import opened RateSpec
  import opened FixedWindow
  import RateExtremes

  /** What Redis does to the two commands of a request. */
  datatype Fault = Healthy | IncrDown | IncrReplyDropped | ExpireDown | ExpireReplyDropped

  /** A malformed limit raises before Redis is asked. */
  datatype Outcome = BadSpec | Answered(verdict: Verdict)

  class RateLimiter {
    const failOpen: bool
    var counters: map<string, Counter> // in Redis

    constructor (failOpen: bool)
      ensures this.failOpen == failOpen && counters == map[]
    {
      this.failOpen, this.counters := failOpen, map[];
    }

    method Incr(key: string, now: nat, fault: Fault) returns (reply: Option<nat>)
      modifies this
      ensures counters == if fault == IncrDown then old(counters) else Incremented(old(counters), key, now)
      ensures reply == if fault == IncrDown || fault == IncrReplyDropped then None else Some(counters[key].value)
    {
      if fault == IncrDown {
        return None;
      }
      counters := Incremented(counters, key, now);
      return if fault == IncrReplyDropped then None else Some(counters[key].value);
    }

    method Expire(key: string, window: nat, now: nat, fault: Fault) returns (ok: bool)
      modifies this
      ensures counters == if fault == ExpireDown then old(counters) else Expiring(old(counters), key, now, window)
      ensures ok == (fault != ExpireDown && fault != ExpireReplyDropped)
    {
      if fault != ExpireDown {
        counters := Expiring(counters, key, now, window);
      }
      return fault != ExpireDown && fault != ExpireReplyDropped;
    }

    method Enforce(rateLimits: map<string, string>, tenant: string, endpoint: string, now: nat, fault: Fault)
      returns (v: Outcome)
      modifies this
      ensures (counters, v) == Enforced(old(counters), failOpen, LimitFor(rateLimits, endpoint), tenant, endpoint, now, fault)
    {
      hide ParseLimit, LimitFor, Incremented, Expiring, WindowKey;
      var spec := LimitFor(rateLimits, endpoint);
      if spec.None? {
        return Answered(Accepted);
      }
      var parsed := ParseLimit(spec.value);
      if parsed.Err? {
        return BadSpec;
      }
      var (count, window) := parsed.value;
      var key := WindowKey(tenant, endpoint, now / window);
      var current := Incr(key, now, fault);
      var ok := current.Some?;
      if current == Some(1) {
        ok := Expire(key, window, now, fault);
      }
      if !ok {
        return Answered(if failOpen then Accepted else Unavailable);
      }
      if current.value > count {
        return Answered(Limited(if window - now % window > 1 then window - now % window else 1));
      }
      return Answered(Accepted);
    }
  }

  // --- The same request in the step machine --------------------------

  function IncrStep(t: Task, fault: Fault): Step {
    match fault
    case IncrDown => IncrFails(t)
    case IncrReplyDropped => IncrReplyLost(t)
    case _ => IncrReplies(t)
  }

  function ExpireStep(t: Task, fault: Fault): Step {
    match fault
    case ExpireDown => ExpireFails(t)
    case ExpireReplyDropped => ExpireReplyLost(t)
    case _ => ExpireReplies(t)
  }

  /** The three steps of one request; the last does nothing unless an EXPIRE is due. */
  function Steps(t: Task, tenant: string, endpoint: string, fault: Fault): seq<Step> {
    [Begin(t, tenant, endpoint), IncrStep(t, fault), ExpireStep(t, fault)]
  }

  function Enforced(counters: map<string, Counter>, failOpen: bool, spec: Option<string>, tenant: string,
                    endpoint: string, now: nat, fault: Fault): (map<string, Counter>, Outcome)
  {
    if spec.None? then (counters, Answered(Accepted))
    else if ParseLimit(spec.value).Err? then (counters, BadSpec)
    else
      var (count, window) := ParseLimit(spec.value).value;
      var key := WindowKey(tenant, endpoint, Quotient(now, window));
      var error := Answered(if failOpen then Accepted else Unavailable);
      if fault == IncrDown then (counters, error)
      else
        var counters' := Incremented(counters, key, now);
        var current := counters'[key].value;
        var counters'' := if current == 1 && fault != IncrReplyDropped && fault != ExpireDown
                          then Expiring(counters', key, now, window) else counters';
        if fault == IncrReplyDropped || (current == 1 && (fault == ExpireDown || fault == ExpireReplyDropped))
        then (counters'', error)
        else (counters'', Answered(if current > count then Limited(RetryAfter(window, now)) else Accepted))
  }

  /** The configuration in which the parsed limits of one endpoint are in force. */
  ghost predicate InForce(cfg: Config, failOpen: bool, spec: Option<string>, tenant: string, endpoint: string) {
    && cfg.failOpen == failOpen && spec.Some? && ParseLimit(spec.value).Ok?
    && (tenant, endpoint) in cfg.limits
    && cfg.limits[(tenant, endpoint)] == Limit(ParseLimit(spec.value).value.0, ParseLimit(spec.value).value.1)
  }

  function CompareWithLimit(limit: Limit, req: Request, current: nat): Verdict
    requires limit.window >= 1
  {
    if current > limit.count then Limited(RetryAfter(limit.window, req.at)) else Accepted
  }

  /** The request at its INCR, and after it: answered, or about to send EXPIRE. */
  lemma IncrIs(cfg: Config, w: World, t: Task, req: Request, fault: Fault)
    requires Known(cfg, req) && PcOf(w, t) == AtIncr(req)
    ensures var (w', key) := (Next(cfg, w, IncrStep(t, fault)), KeyOf(cfg, req));
            var counters := Incremented(w.counters, key, w.now);
            && w'.now == w.now
            && w'.counters == (if fault == IncrDown then w.counters else counters)
            && if fault == IncrDown || fault == IncrReplyDropped then
                 PcOf(w', t) == Idle
                 && w'.responses == w.responses + [Response(req, if cfg.failOpen then Accepted else Unavailable)]
               else if counters[key].value == 1 then
                 PcOf(w', t) == AtExpire(req, |w.incrs|) && w'.responses == w.responses
               else
                 PcOf(w', t) == Idle
                 && w'.responses == w.responses + [Response(req, CompareWithLimit(LimitOf(cfg, req), req, counters[key].value))]
  {
    hide RetryAfter;
  }

  lemma ExpireIs(cfg: Config, w: World, t: Task, req: Request, i: nat, fault: Fault)
    requires Known(cfg, req) && PcOf(w, t) == AtExpire(req, i)
    ensures var (w', limit) := (Next(cfg, w, ExpireStep(t, fault)), LimitOf(cfg, req));
            && PcOf(w', t) == Idle && w'.now == w.now
            && w'.counters == (if fault == ExpireDown then w.counters
                               else Expiring(w.counters, KeyOf(cfg, req), w.now, limit.window))
            && w'.responses == w.responses + [Response(req,
                 if fault == ExpireDown || fault == ExpireReplyDropped then if cfg.failOpen then Accepted else Unavailable
                 else CompareWithLimit(limit, req, 1))]
  {
    hide RetryAfter;
  }

  /** A request served without interruption is its three steps of the machine, whatever fails: the same
      counters, and the response the machine gives. */
  lemma EnforcedIsARun(cfg: Config, w: World, t: Task, failOpen: bool, spec: Option<string>,
                       tenant: string, endpoint: string, fault: Fault)
    requires ValidConfig(cfg) && InForce(cfg, failOpen, spec, tenant, endpoint) && PcOf(w, t) == Idle
    ensures var (w', req) := (RunFrom(cfg, w, Steps(t, tenant, endpoint, fault)), Request(tenant, endpoint, w.now));
            var (counters, v) := Enforced(w.counters, failOpen, spec, tenant, endpoint, w.now, fault);
            && w'.counters == counters && w'.now == w.now && PcOf(w', t) == Idle
            && v.Answered? && w'.responses == w.responses + [Response(req, v.verdict)]
  {
    var steps := Steps(t, tenant, endpoint, fault);
    RateExtremes.ThreeSteps(cfg, w, steps[0], steps[1], steps[2]);
    hide RunFrom, ParseLimit, Incremented, Expiring, RetryAfter;
    var req := Request(tenant, endpoint, w.now);
    var w1 := Next(cfg, w, steps[0]);
    assert w1 == w.(pcs := w.pcs[t := AtIncr(req)]);
    var w2 := Next(cfg, w1, steps[1]);
    IncrIs(cfg, w1, t, req, fault);
    if PcOf(w2, t).AtExpire? {
      hide Next;
      ExpireIs(cfg, w2, t, req, |w.incrs|, fault);
    } else {
      assert Next(cfg, w2, steps[2]) == w2;
      hide Next;
    }
  }

  /** After any run, with Redis answering, a request is let through exactly when fewer than `count`
      requests of its window reached INCR before it; otherwise it is told when the next window starts. */
  lemma RefusedIffWindowFull(cfg: Config, steps: seq<Step>, failOpen: bool, spec: Option<string>,
                             tenant: string, endpoint: string)
    requires ValidConfig(cfg) && InForce(cfg, failOpen, spec, tenant, endpoint)
    ensures var (w, req) := (Run(cfg, steps), Request(tenant, endpoint, Run(cfg, steps).now));
            var v := Enforced(w.counters, failOpen, spec, tenant, endpoint, w.now, Healthy).1;
            && LogKnown(cfg, w)
            && v == Answered(if Hits(cfg, w.incrs, req) < LimitOf(cfg, req).count then Accepted
                             else Limited(RetryAfter(LimitOf(cfg, req).window, w.now)))
  {
    var w, req := Run(cfg, steps), Request(tenant, endpoint, Run(cfg, steps).now);
    WindowContains(cfg, req);
    NeverResetInsideWindow(cfg, steps, req);
    hide Run, ParseLimit, WindowEnd, Hits, RetryAfter;
  }

  /** From the tenant's own table, whatever the defaults: after any run, with Redis answering, a request to
      an endpoint in the table is let through exactly when fewer than the count written there reached INCR
      in its window before it. */
  lemma TenantTableDecides(cfg: Config, steps: seq<Step>, failOpen: bool, rateLimits: map<string, string>,
                           tenant: string, endpoint: string, count: nat, window: nat)
    requires ValidConfig(cfg) && endpoint in rateLimits && ParseLimit(rateLimits[endpoint]) == Ok((count, window))
    requires cfg.failOpen == failOpen && (tenant, endpoint) in cfg.limits && cfg.limits[(tenant, endpoint)] == Limit(count, window)
    ensures var (w, req) := (Run(cfg, steps), Request(tenant, endpoint, Run(cfg, steps).now));
            var v := Enforced(w.counters, failOpen, LimitFor(rateLimits, endpoint), tenant, endpoint, w.now, Healthy).1;
            && LogKnown(cfg, w)
            && v == Answered(if Hits(cfg, w.incrs, req) < count then Accepted else Limited(RetryAfter(window, w.now)))
  {
    TenantLimitFirst(rateLimits, endpoint);
    RefusedIffWindowFull(cfg, steps, failOpen, LimitFor(rateLimits, endpoint), tenant, endpoint);
    hide Enforced, ParseLimit, Hits, Run, LimitFor, RetryAfter, LogKnown;
  }

  /** An endpoint the table does not mention falls under the default: sixty a minute for completions, a
      thousand for embeddings, two hundred for reranking. */
  lemma DefaultDecides(cfg: Config, steps: seq<Step>, failOpen: bool, rateLimits: map<string, string>,
                       tenant: string, endpoint: string)
    requires ValidConfig(cfg) && endpoint !in rateLimits
    requires endpoint in {"chat.completions", "completions", "embeddings", "rerank"}
    requires var count := if endpoint == "embeddings" then 1000 else if endpoint == "rerank" then 200 else 60;
             && cfg.failOpen == failOpen && (tenant, endpoint) in cfg.limits
             && cfg.limits[(tenant, endpoint)] == Limit(count, 60)
    ensures var count := if endpoint == "embeddings" then 1000 else if endpoint == "rerank" then 200 else 60;
            var (w, req) := (Run(cfg, steps), Request(tenant, endpoint, Run(cfg, steps).now));
            var v := Enforced(w.counters, failOpen, LimitFor(rateLimits, endpoint), tenant, endpoint, w.now, Healthy).1;
            && LogKnown(cfg, w)
            && v == Answered(if Hits(cfg, w.incrs, req) < count then Accepted else Limited(RetryAfter(60, w.now)))
  {
    TenantLimitFirst(rateLimits, endpoint);
    DefaultLimitsParse(endpoint);
    assert LimitFor(map[], endpoint).Some?;
    hide Enforced, ParseLimit, Hits, Run, LimitFor, RetryAfter, LogKnown;
    RefusedIffWindowFull(cfg, steps, failOpen, LimitFor(rateLimits, endpoint), tenant, endpoint);
  }

  /** A malformed entry in the table raises, whatever the default, and never reaches Redis. */
  lemma MalformedEntryRaises(counters: map<string, Counter>, failOpen: bool, rateLimits: map<string, string>,
                             tenant: string, endpoint: string, now: nat, fault: Fault)
    requires endpoint in rateLimits && ParseLimit(rateLimits[endpoint]).Err?
    ensures Enforced(counters, failOpen, LimitFor(rateLimits, endpoint), tenant, endpoint, now, fault) == (counters, BadSpec)
  {
    TenantLimitFirst(rateLimits, endpoint);
    hide ParseLimit;
  }

  /** When Redis does not take the INCR, nothing is counted, and the request goes on or gets a 503. */
  lemma RedisDown(counters: map<string, Counter>, failOpen: bool, spec: string, tenant: string,
                  endpoint: string, now: nat)
    requires ParseLimit(spec).Ok?
    ensures Enforced(counters, true, Some(spec), tenant, endpoint, now, IncrDown) == (counters, Answered(Accepted))
    ensures Enforced(counters, false, Some(spec), tenant, endpoint, now, IncrDown) == (counters, Answered(Unavailable))
  {
    hide ParseLimit;
  }

  /** The first request of a window leaves a counter of one, under the documented key, that expires a window
      length after the request. */
  lemma FirstRequestCounts(tenant: string, now: nat)
    ensures Enforced(map[], true, LimitFor(map[], "embeddings"), tenant, "embeddings", now, Healthy) ==
            (map["rl:" + tenant + ":" + "embeddings" + ":" + Decimal(Quotient(now, 60)) := Counter(1, Some(now + 60))],
             Answered(Accepted))
  {
    DefaultLimitsParse("embeddings");
    hide ParseLimit, Decimal, Quotient;
    assert LimitFor(map[], "embeddings").Some?;
    var key := WindowKey(tenant, "embeddings", Quotient(now, 60));
    assert Incremented(map[], key, now) == map[key := Counter(1, None)];
    assert Expiring(map[key := Counter(1, None)], key, now, 60) == map[key := Counter(1, Some(now + 60))];
  }

  /** Under the default limits no request is refused as malformed, and unknown endpoints are unlimited. */
  lemma DefaultsNeverMalformed(counters: map<string, Counter>, failOpen: bool, tenant: string, endpoint: string,
                               now: nat, fault: Fault)
    ensures var r := Enforced(counters, failOpen, LimitFor(map[], endpoint), tenant, endpoint, now, fault);
            && r.1 != BadSpec
            && (endpoint !in DEFAULT_LIMITS || endpoint == "models" ==> r == (counters, Answered(Accepted)))
  {
    if LimitFor(map[], endpoint).Some? {
      DefaultLimitsParse(endpoint);
      hide ParseLimit, Incremented, Expiring, RetryAfter, WindowKey;
    }
  }
}
