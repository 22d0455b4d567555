/** How many requests the fixed-window limiter lets through, in any run: late commands, lost replies
    and failures included. */
module RateBounds {
  import opened Division
  import opened FixedWindow

  /** A choice of requests, such as those of one window or of one interval. */
  type Selection = Request -> bool

  // --- Counting ------------------------------------------------------

  function AcceptedWhere(responses: seq<Response>, sel: Selection): nat {
    if responses == [] then 0
    else
      var last := responses[|responses| - 1];
      AcceptedWhere(responses[..|responses| - 1], sel) + if last.verdict == Accepted && sel(last.req) then 1 else 0
  }

  function ErrorsWhere(errors: seq<Request>, sel: Selection): nat {
    if errors == [] then 0
    else ErrorsWhere(errors[..|errors| - 1], sel) + if sel(errors[|errors| - 1]) then 1 else 0
  }

  function AdmittedWhere(incrs: seq<Incr>, admitted: set<nat>, sel: Selection): nat {
    if incrs == [] then 0
    else
      var n := |incrs| - 1;
      AdmittedWhere(incrs[..n], admitted, sel) + if n in admitted && sel(incrs[n].req) then 1 else 0
  }

  /** The INCRs that found no live counter and started one. */
  function StartsWhere(incrs: seq<Incr>, sel: Selection): nat {
    if incrs == [] then 0
    else
      var last := incrs[|incrs| - 1];
      StartsWhere(incrs[..|incrs| - 1], sel) + if last.value == 1 && sel(last.req) then 1 else 0
  }

  /** The INCR reached Redis when the window of its request was over. */
  predicate Late(cfg: Config, x: Incr) {
    Known(cfg, x.req) && x.time >= WindowEnd(cfg, x.req)
  }

  function LateWhere(cfg: Config, incrs: seq<Incr>, sel: Selection): nat {
    if incrs == [] then 0
    else
      var last := incrs[|incrs| - 1];
      LateWhere(cfg, incrs[..|incrs| - 1], sel) + if Late(cfg, last) && sel(last.req) then 1 else 0
  }

  /** The INCRs let through that arrived in their window. */
  function PromptWhere(cfg: Config, incrs: seq<Incr>, admitted: set<nat>, sel: Selection): nat {
    if incrs == [] then 0
    else
      var n := |incrs| - 1;
      PromptWhere(cfg, incrs[..n], admitted, sel) + if n in admitted && !Late(cfg, incrs[n]) && sel(incrs[n].req) then 1 else 0
  }

  // --- Decisions -----------------------------------------------------

  ghost predicate DecisionInv(cfg: Config, w: World) {
    && (forall i | i in w.admitted ::
          i < |w.incrs| && Known(cfg, w.incrs[i].req) && w.incrs[i].value <= LimitOf(cfg, w.incrs[i].req).count)
    && (forall i | i in w.limited ::
          i < |w.incrs| && Known(cfg, w.incrs[i].req) && w.incrs[i].value > LimitOf(cfg, w.incrs[i].req).count)
    && (forall t: Task | PcOf(w, t).AtExpire? ::
          && PcOf(w, t).incr < |w.incrs| && PcOf(w, t).incr !in w.admitted + w.limited
          && w.incrs[PcOf(w, t).incr].req == PcOf(w, t).req && w.incrs[PcOf(w, t).incr].value == 1)
    && (forall t: Task, u: Task | t != u && PcOf(w, t).AtExpire? && PcOf(w, u).AtExpire? ::
          PcOf(w, t).incr != PcOf(w, u).incr)
  }

  lemma IncrDecides(cfg: Config, w: World, t: Task)
    requires DecisionInv(cfg, w) && Enabled(cfg, w, IncrReplies(t))
    ensures DecisionInv(cfg, Next(cfg, w, IncrReplies(t)))
  {
    hide KeyOf, Bucket, Incremented, RetryAfter;
    var w' := Next(cfg, w, IncrReplies(t));
    assert forall i | 0 <= i < |w.incrs| :: w'.incrs[i] == w.incrs[i];
    assert w'.incrs[|w.incrs|].req == PcOf(w, t).req;
    assert forall u: Task | u != t :: PcOf(w', u) == PcOf(w, u);
  }

  lemma NextDecides(cfg: Config, w: World, step: Step)
    requires DecisionInv(cfg, w)
    ensures DecisionInv(cfg, Next(cfg, w, step))
  {
    if Enabled(cfg, w, step) && step.IncrReplies? {
      IncrDecides(cfg, w, step.t);
    } else {
      hide KeyOf, Bucket, Expiring, Incremented, RetryAfter;
      var w' := Next(cfg, w, step);
      assert forall i | 0 <= i < |w.incrs| :: w'.incrs[i] == w.incrs[i];
      assert forall u: Task | PcOf(w', u).AtExpire? :: PcOf(w', u) == PcOf(w, u);
    }
  }

  lemma {:induction false} RunDecides(cfg: Config, steps: seq<Step>)
    ensures DecisionInv(cfg, Run(cfg, steps))
  {
    if steps != [] {
      hide Next, DecisionInv;
      RunDecides(cfg, steps[..|steps| - 1]);
      NextDecides(cfg, Run(cfg, steps[..|steps| - 1]), steps[|steps| - 1]);
    }
  }

  // --- Responses add up ----------------------------------------------

  lemma AdmittedSnoc(incrs: seq<Incr>, x: Incr, admitted: set<nat>, sel: Selection)
    ensures AdmittedWhere(incrs + [x], admitted, sel) ==
            AdmittedWhere(incrs, admitted, sel) + if |incrs| in admitted && sel(x.req) then 1 else 0
  {
    assert (incrs + [x])[..|incrs|] == incrs;
  }

  lemma {:induction false} AdmittedMore(incrs: seq<Incr>, admitted: set<nat>, i: nat, sel: Selection)
    requires i !in admitted
    ensures AdmittedWhere(incrs, admitted + {i}, sel) ==
            AdmittedWhere(incrs, admitted, sel) + if i < |incrs| && sel(incrs[i].req) then 1 else 0
  {
    if incrs != [] {
      AdmittedMore(incrs[..|incrs| - 1], admitted, i, sel);
    }
  }

  lemma AcceptedSnoc(responses: seq<Response>, x: Response, sel: Selection)
    ensures AcceptedWhere(responses + [x], sel) ==
            AcceptedWhere(responses, sel) + if x.verdict == Accepted && sel(x.req) then 1 else 0
  {
    assert (responses + [x])[..|responses|] == responses;
  }

  lemma ErrorsSnoc(errors: seq<Request>, x: Request, sel: Selection)
    ensures ErrorsWhere(errors + [x], sel) == ErrorsWhere(errors, sel) + if sel(x) then 1 else 0
  {
    assert (errors + [x])[..|errors|] == errors;
  }

  /** Every accepted request is one whose INCR passed, or, failing open, one that met an error. */
  ghost predicate AddsUp(cfg: Config, w: World, sel: Selection) {
    AcceptedWhere(w.responses, sel) ==
    AdmittedWhere(w.incrs, w.admitted, sel) + if cfg.failOpen then ErrorsWhere(w.errors, sel) else 0
  }

  lemma DecideAddsUp(cfg: Config, w: World, t: Task, req: Request, i: nat, current: nat, sel: Selection)
    requires AddsUp(cfg, w, sel) && Known(cfg, req)
    requires i < |w.incrs| && w.incrs[i].req == req && i !in w.admitted
    ensures AddsUp(cfg, Decide(cfg, w, t, req, i, current), sel)
  {
    hide AcceptedWhere, AdmittedWhere, ErrorsWhere;
    AdmittedMore(w.incrs, w.admitted, i, sel);
    var w' := Decide(cfg, w, t, req, i, current);
    AcceptedSnoc(w.responses, w'.responses[|w.responses|], sel);
  }

  lemma ErrorAddsUp(cfg: Config, w: World, t: Task, req: Request, sel: Selection)
    requires AddsUp(cfg, w, sel)
    ensures AddsUp(cfg, Error(cfg, w, t, req), sel)
  {
    hide AcceptedWhere, AdmittedWhere, ErrorsWhere;
    AcceptedSnoc(w.responses, Error(cfg, w, t, req).responses[|w.responses|], sel);
    ErrorsSnoc(w.errors, req, sel);
  }

  lemma ApplyIncrAddsUp(cfg: Config, w: World, req: Request, sel: Selection)
    requires AddsUp(cfg, w, sel) && Known(cfg, req) && DecisionInv(cfg, w)
    ensures AddsUp(cfg, ApplyIncr(cfg, w, req), sel)
  {
    hide AcceptedWhere, AdmittedWhere, ErrorsWhere, KeyOf, Incremented;
    var w' := ApplyIncr(cfg, w, req);
    AdmittedSnoc(w.incrs, w'.incrs[|w.incrs|], w.admitted, sel);
  }

  lemma NextAddsUp(cfg: Config, w: World, step: Step, sel: Selection)
    requires DecisionInv(cfg, w) && AddsUp(cfg, w, sel)
    ensures AddsUp(cfg, Next(cfg, w, step), sel)
  {
    hide AcceptedWhere, AdmittedWhere, ErrorsWhere, KeyOf, Incremented, Expiring, Decide, Error;
    if Enabled(cfg, w, step) {
      match step
      case Tick(_) =>
      case Begin(_, _, _) =>
      case IncrReplies(t) =>
        var req := PcOf(w, t).req;
        var w' := ApplyIncr(cfg, w, req);
        ApplyIncrAddsUp(cfg, w, req, sel);
        if w'.incrs[|w.incrs|].value != 1 {
          DecideAddsUp(cfg, w', t, req, |w.incrs|, w'.incrs[|w.incrs|].value, sel);
        }
      case IncrReplyLost(t) =>
        ApplyIncrAddsUp(cfg, w, PcOf(w, t).req, sel);
        ErrorAddsUp(cfg, ApplyIncr(cfg, w, PcOf(w, t).req), t, PcOf(w, t).req, sel);
      case IncrFails(t) => ErrorAddsUp(cfg, w, t, PcOf(w, t).req, sel);
      case ExpireFails(t) => ErrorAddsUp(cfg, w, t, PcOf(w, t).req, sel);
      case ExpireReplies(t) =>
        var req := PcOf(w, t).req;
        var w' := w.(counters := Expiring(w.counters, KeyOf(cfg, req), w.now, LimitOf(cfg, req).window));
        assert AddsUp(cfg, w', sel);
        DecideAddsUp(cfg, w', t, req, PcOf(w, t).incr, 1, sel);
      case ExpireReplyLost(t) =>
        var req := PcOf(w, t).req;
        var w' := w.(counters := Expiring(w.counters, KeyOf(cfg, req), w.now, LimitOf(cfg, req).window));
        assert AddsUp(cfg, w', sel);
        ErrorAddsUp(cfg, w', t, req, sel);
    }
  }

  /** Conservation: in every run and for any selection of requests, the accepted ones are those whose
      INCR passed the limit and, exactly when failing open, those that met an error. */
  lemma {:induction false} ResponsesAddUp(cfg: Config, steps: seq<Step>, sel: Selection)
    ensures AddsUp(cfg, Run(cfg, steps), sel)
  {
    if steps != [] {
      hide Next, AddsUp, DecisionInv;
      ResponsesAddUp(cfg, steps[..|steps| - 1], sel);
      RunDecides(cfg, steps[..|steps| - 1]);
      NextAddsUp(cfg, Run(cfg, steps[..|steps| - 1]), steps[|steps| - 1], sel);
    }
  }

  // --- Counters between two starts -----------------------------------

  /** How many INCRs of the request's window there are from the latest that started its counter on. */
  ghost function SinceStart(cfg: Config, incrs: seq<Incr>, req: Request): nat
    requires Known(cfg, req) && forall i | 0 <= i < |incrs| :: Known(cfg, incrs[i].req)
  {
    if incrs == [] then 0
    else
      var front, last := incrs[..|incrs| - 1], incrs[|incrs| - 1];
      if !SameWindow(cfg, last.req, req) then SinceStart(cfg, front, req)
      else if last.value == 1 then 1
      else SinceStart(cfg, front, req) + 1
  }

  /** The stored counter of a window counts from its latest start, expired or not. */
  ghost predicate CounterSinceStart(cfg: Config, w: World, req: Request)
    requires LogKnown(cfg, w) && Known(cfg, req)
  {
    var key := KeyOf(cfg, req);
    if key in w.counters then w.counters[key].value == SinceStart(cfg, w.incrs, req) >= 1
    else SinceStart(cfg, w.incrs, req) == 0
  }

  ghost predicate ValueSinceStart(cfg: Config, w: World, i: nat)
    requires LogKnown(cfg, w) && i < |w.incrs|
  {
    w.incrs[i].value == SinceStart(cfg, w.incrs[..i + 1], w.incrs[i].req)
  }

  ghost predicate ChainInv(cfg: Config, w: World) {
    && LogKnown(cfg, w)
    && (forall req: Request | Known(cfg, req) :: CounterSinceStart(cfg, w, req))
    && (forall i | 0 <= i < |w.incrs| :: ValueSinceStart(cfg, w, i))
  }

  lemma SinceStartSnoc(cfg: Config, incrs: seq<Incr>, x: Incr, req: Request)
    requires Known(cfg, req) && Known(cfg, x.req) && forall i | 0 <= i < |incrs| :: Known(cfg, incrs[i].req)
    ensures forall i | 0 <= i < |incrs + [x]| :: Known(cfg, (incrs + [x])[i].req)
    ensures SinceStart(cfg, incrs + [x], req) ==
            if !SameWindow(cfg, x.req, req) then SinceStart(cfg, incrs, req)
            else if x.value == 1 then 1 else SinceStart(cfg, incrs, req) + 1
  {
    assert (incrs + [x])[..|incrs|] == incrs;
  }

  lemma ApplyIncrChains(cfg: Config, w: World, req: Request)
    requires ValidConfig(cfg) && ChainInv(cfg, w) && Known(cfg, req) && LogKnown(cfg, ApplyIncr(cfg, w, req))
    ensures ChainInv(cfg, ApplyIncr(cfg, w, req))
  {
    hide KeyOf, SameWindow, SinceStart;
    var w' := ApplyIncr(cfg, w, req);
    var x := w'.incrs[|w.incrs|];
    assert CounterSinceStart(cfg, w, req);
    assert x.req == req && SameWindow(cfg, req, req) by {
      SameKeySameWindow(cfg, req, req);
    }
    forall r: Request | Known(cfg, r)
      ensures CounterSinceStart(cfg, w', r)
    {
      SinceStartSnoc(cfg, w.incrs, x, r);
      SameKeySameWindow(cfg, req, r);
      assert CounterSinceStart(cfg, w, r);
    }
    forall i | 0 <= i < |w'.incrs|
      ensures ValueSinceStart(cfg, w', i)
    {
      if i < |w.incrs| {
        assert ValueSinceStart(cfg, w, i);
        assert w'.incrs[..i + 1] == w.incrs[..i + 1];
      } else {
        assert w'.incrs[..i + 1] == w'.incrs;
        SinceStartSnoc(cfg, w.incrs, x, req);
      }
    }
  }

  /** Steps that change neither the log nor the counters' values. */
  lemma SameValuesChain(cfg: Config, w: World, w': World)
    requires ChainInv(cfg, w) && LogKnown(cfg, w') && w'.incrs == w.incrs
    requires w'.counters.Keys == w.counters.Keys && forall k | k in w.counters :: w'.counters[k].value == w.counters[k].value
    ensures ChainInv(cfg, w')
  {
    hide KeyOf, SinceStart;
    forall r: Request | Known(cfg, r)
      ensures CounterSinceStart(cfg, w', r)
    {
      assert CounterSinceStart(cfg, w, r);
    }
    forall i | 0 <= i < |w'.incrs|
      ensures ValueSinceStart(cfg, w', i)
    {
      assert ValueSinceStart(cfg, w, i);
    }
  }

  lemma OtherStepsKeepValues(cfg: Config, w: World, step: Step)
    requires !(Enabled(cfg, w, step) && (step.IncrReplies? || step.IncrReplyLost?))
    ensures var w' := Next(cfg, w, step);
            && w'.incrs == w.incrs && w'.counters.Keys == w.counters.Keys
            && forall k | k in w.counters :: w'.counters[k].value == w.counters[k].value
  {
    hide KeyOf, RetryAfter;
  }

  lemma IncrStepIsApplied(cfg: Config, w: World, step: Step)
    requires Enabled(cfg, w, step) && (step.IncrReplies? || step.IncrReplyLost?)
    ensures var (w', w1) := (Next(cfg, w, step), ApplyIncr(cfg, w, PcOf(w, step.t).req));
            w'.incrs == w1.incrs && w'.counters == w1.counters
  {
    hide KeyOf, RetryAfter, Incremented;
  }

  lemma NextChains(cfg: Config, w: World, step: Step)
    requires ValidConfig(cfg) && Inv(cfg, w) && ChainInv(cfg, w)
    ensures ChainInv(cfg, Next(cfg, w, step))
  {
    NextKeepsInv(cfg, w, step);
    if Enabled(cfg, w, step) && (step.IncrReplies? || step.IncrReplyLost?) {
      ApplyIncrKeepsInv(cfg, w, PcOf(w, step.t).req);
      IncrStepIsApplied(cfg, w, step);
      hide ApplyIncr, Next, CounterExact, IncrExact, ChainInv;
      ApplyIncrChains(cfg, w, PcOf(w, step.t).req);
      SameValuesChain(cfg, ApplyIncr(cfg, w, PcOf(w, step.t).req), Next(cfg, w, step));
    } else {
      OtherStepsKeepValues(cfg, w, step);
      hide Next, CounterExact, IncrExact, ChainInv;
      SameValuesChain(cfg, w, Next(cfg, w, step));
    }
  }

  lemma {:induction false} RunChains(cfg: Config, steps: seq<Step>)
    requires ValidConfig(cfg)
    ensures ChainInv(cfg, Run(cfg, steps))
  {
    if steps != [] {
      hide Next, ChainInv, Inv;
      RunChains(cfg, steps[..|steps| - 1]);
      RunKeepsInv(cfg, steps[..|steps| - 1]);
      NextChains(cfg, Run(cfg, steps[..|steps| - 1]), steps[|steps| - 1]);
    }
  }

  // --- Who passes ----------------------------------------------------

  /** A compared request passes exactly when it is among the first `count` INCRs of its window since the
      counter was started; and while INCRs arrive in time, that is among the first `count` of the window. */
  lemma FirstCountPass(cfg: Config, steps: seq<Step>, i: nat)
    requires ValidConfig(cfg)
    requires var w := Run(cfg, steps); i in w.admitted || i in w.limited
    ensures var w := Run(cfg, steps);
            && LogKnown(cfg, w) && i < |w.incrs|
            && (i in w.admitted <==>
                  SinceStart(cfg, w.incrs[..i + 1], w.incrs[i].req) <= LimitOf(cfg, w.incrs[i].req).count)
            && (i in w.limited <==> i !in w.admitted)
            && (!Late(cfg, w.incrs[i]) ==>
                  SinceStart(cfg, w.incrs[..i + 1], w.incrs[i].req) == Hits(cfg, w.incrs[..i], w.incrs[i].req) + 1)
  {
    RunKeepsInv(cfg, steps);
    RunChains(cfg, steps);
    RunDecides(cfg, steps);
    hide Run, CounterExact, CounterSinceStart;
    assert IncrExact(cfg, Run(cfg, steps), i) && ValueSinceStart(cfg, Run(cfg, steps), i);
  }

  // --- Per window ----------------------------------------------------

  function InWindow(cfg: Config, req: Request): Selection
    requires Known(cfg, req)
  {
    (r: Request) => Known(cfg, r) && r.tenant == req.tenant && r.endpoint == req.endpoint && Bucket(cfg, r) == Bucket(cfg, req)
  }

  /** The INCRs of a window that returned at most the limit. */
  ghost function WithinLimit(cfg: Config, incrs: seq<Incr>, req: Request): nat
    requires Known(cfg, req)
  {
    if incrs == [] then 0
    else
      var last := incrs[|incrs| - 1];
      WithinLimit(cfg, incrs[..|incrs| - 1], req)
      + if InWindow(cfg, req)(last.req) && last.value <= LimitOf(cfg, req).count then 1 else 0
  }

  lemma {:induction false} AdmittedAreWithin(cfg: Config, incrs: seq<Incr>, admitted: set<nat>, req: Request)
    requires Known(cfg, req)
    requires forall i | i in admitted && i < |incrs| ::
               Known(cfg, incrs[i].req) && incrs[i].value <= LimitOf(cfg, incrs[i].req).count
    ensures AdmittedWhere(incrs, admitted, InWindow(cfg, req)) <= WithinLimit(cfg, incrs, req)
  {
    if incrs != [] {
      hide Bucket;
      AdmittedAreWithin(cfg, incrs[..|incrs| - 1], admitted, req);
    }
  }

  /** `within` of the values seen are at most `count`, after `starts` starts and `since` INCRs from the last. */
  ghost predicate PerStart(count: nat, starts: nat, within: nat, since: nat) {
    if starts == 0 then within == 0 && since == 0
    else within + count <= count * starts + if since < count then since else count
  }

  lemma PerStartStep(count: nat, starts: nat, within: nat, since: nat)
    requires PerStart(count, starts, within, since)
    ensures PerStart(count, starts + 1, within + if 1 <= count then 1 else 0, 1)
    ensures since >= 1 ==> PerStart(count, starts, within + if since + 1 <= count then 1 else 0, since + 1)
  {
    assert count * (starts + 1) == count * starts + count;
  }

  lemma LastOutside(cfg: Config, incrs: seq<Incr>, req: Request)
    requires Known(cfg, req) && incrs != [] && forall i | 0 <= i < |incrs| :: Known(cfg, incrs[i].req)
    requires !SameWindow(cfg, incrs[|incrs| - 1].req, req)
    ensures var (front, sel) := (incrs[..|incrs| - 1], InWindow(cfg, req));
            && StartsWhere(incrs, sel) == StartsWhere(front, sel)
            && WithinLimit(cfg, incrs, req) == WithinLimit(cfg, front, req)
            && SinceStart(cfg, incrs, req) == SinceStart(cfg, front, req)
  {
    hide Bucket;
  }

  lemma LastInside(cfg: Config, incrs: seq<Incr>, req: Request)
    requires Known(cfg, req) && incrs != [] && forall i | 0 <= i < |incrs| :: Known(cfg, incrs[i].req)
    requires SameWindow(cfg, incrs[|incrs| - 1].req, req)
    requires incrs[|incrs| - 1].value == SinceStart(cfg, incrs, incrs[|incrs| - 1].req)
    ensures var (front, sel, value) := (incrs[..|incrs| - 1], InWindow(cfg, req), incrs[|incrs| - 1].value);
            && StartsWhere(incrs, sel) == StartsWhere(front, sel) + (if value == 1 then 1 else 0)
            && WithinLimit(cfg, incrs, req) ==
               WithinLimit(cfg, front, req) + (if value <= LimitOf(cfg, req).count then 1 else 0)
            && SinceStart(cfg, incrs, req) == value
            && (value == 1 || value == SinceStart(cfg, front, req) + 1)
  {
    SameWindowSince(cfg, incrs, incrs[|incrs| - 1].req, req);
    hide Bucket;
  }

  /** Every INCR of the log returned its position since the latest start. */
  ghost predicate Chained(cfg: Config, incrs: seq<Incr>) {
    && (forall i | 0 <= i < |incrs| :: Known(cfg, incrs[i].req))
    && (forall i | 0 <= i < |incrs| :: incrs[i].value == SinceStart(cfg, incrs[..i + 1], incrs[i].req))
  }

  lemma ChainedFront(cfg: Config, incrs: seq<Incr>)
    requires Chained(cfg, incrs) && incrs != []
    ensures var n := |incrs| - 1;
            Chained(cfg, incrs[..n]) && Known(cfg, incrs[n].req) && incrs[n].value == SinceStart(cfg, incrs, incrs[n].req)
  {
    hide SinceStart;
    var n := |incrs| - 1;
    var front := incrs[..n];
    forall i | 0 <= i < n
      ensures front[i].value == SinceStart(cfg, front[..i + 1], front[i].req)
    {
      assert front[..i + 1] == incrs[..i + 1];
    }
    assert incrs[..n + 1] == incrs;
  }

  lemma ChainedKnown(cfg: Config, incrs: seq<Incr>)
    requires Chained(cfg, incrs)
    ensures forall i | 0 <= i < |incrs| :: Known(cfg, incrs[i].req)
  {
  }

  /** Between two starts at most `count` values are within the limit. */
  lemma {:induction false} WithinLimitPerStart(cfg: Config, incrs: seq<Incr>, req: Request)
    requires Known(cfg, req) && Chained(cfg, incrs)
    ensures PerStart(LimitOf(cfg, req).count, StartsWhere(incrs, InWindow(cfg, req)),
                     WithinLimit(cfg, incrs, req), SinceStart(cfg, incrs, req))
  {
    if incrs == [] {
      assert PerStart(LimitOf(cfg, req).count, 0, 0, 0);
    } else {
      hide Chained, PerStart, Bucket, SinceStart, WithinLimit, StartsWhere, SameWindow, InWindow;
      var front, last := incrs[..|incrs| - 1], incrs[|incrs| - 1];
      ChainedKnown(cfg, incrs);
      ChainedFront(cfg, incrs);
      WithinLimitPerStart(cfg, front, req);
      if SameWindow(cfg, last.req, req) {
        LastInside(cfg, incrs, req);
        PerStartStep(LimitOf(cfg, req).count, StartsWhere(front, InWindow(cfg, req)),
                     WithinLimit(cfg, front, req), SinceStart(cfg, front, req));
      } else {
        LastOutside(cfg, incrs, req);
      }
    }
  }

  lemma {:induction false} SameWindowSince(cfg: Config, incrs: seq<Incr>, r: Request, r': Request)
    requires Known(cfg, r) && Known(cfg, r') && forall k | 0 <= k < |incrs| :: Known(cfg, incrs[k].req)
    requires SameWindow(cfg, r, r')
    ensures SinceStart(cfg, incrs, r) == SinceStart(cfg, incrs, r')
  {
    if incrs != [] {
      SameWindowSince(cfg, incrs[..|incrs| - 1], r, r');
    }
  }

  /** Only a late INCR starts a counter anew after the first. */
  lemma {:induction false} StartsAreLate(cfg: Config, w: World, req: Request, n: nat)
    requires Inv(cfg, w) && Known(cfg, req) && n <= |w.incrs|
    ensures StartsWhere(w.incrs[..n], InWindow(cfg, req)) <=
            LateWhere(cfg, w.incrs[..n], InWindow(cfg, req)) + if Hits(cfg, w.incrs[..n], req) > 0 then 1 else 0
  {
    if n > 0 {
      var last := w.incrs[n - 1];
      assert w.incrs[..n][..n - 1] == w.incrs[..n - 1];
      StartsAreLate(cfg, w, req, n - 1);
      assert IncrExact(cfg, w, n - 1);
      StartsAreHits(cfg, w.incrs[..n - 1], req);
      if SameWindow(cfg, last.req, req) {
        SameWindowHits(cfg, w.incrs[..n - 1], last.req, req);
      }
      hide Inv, WindowEnd, Bucket;
    }
  }

  lemma {:induction false} StartsAreHits(cfg: Config, incrs: seq<Incr>, req: Request)
    requires Known(cfg, req) && forall k | 0 <= k < |incrs| :: Known(cfg, incrs[k].req)
    ensures StartsWhere(incrs, InWindow(cfg, req)) <= Hits(cfg, incrs, req)
  {
    if incrs != [] {
      StartsAreHits(cfg, incrs[..|incrs| - 1], req);
    }
  }

  lemma {:induction false} SameWindowHits(cfg: Config, incrs: seq<Incr>, r: Request, r': Request)
    requires Known(cfg, r) && Known(cfg, r') && forall k | 0 <= k < |incrs| :: Known(cfg, incrs[k].req)
    requires SameWindow(cfg, r, r')
    ensures Hits(cfg, incrs, r) == Hits(cfg, incrs, r')
  {
    if incrs != [] {
      SameWindowHits(cfg, incrs[..|incrs| - 1], r, r');
    }
  }

  lemma PerStartBounds(count: nat, starts: nat, within: nat, since: nat)
    requires PerStart(count, starts, within, since)
    ensures within <= count * starts
  {
  }

  lemma LogIsChained(cfg: Config, w: World)
    requires ChainInv(cfg, w)
    ensures LogKnown(cfg, w) && Chained(cfg, w.incrs)
  {
    forall i | 0 <= i < |w.incrs|
      ensures w.incrs[i].value == SinceStart(cfg, w.incrs[..i + 1], w.incrs[i].req)
    {
      assert ValueSinceStart(cfg, w, i);
    }
  }

  lemma AdmittedPerWindow(cfg: Config, w: World, req: Request)
    requires Inv(cfg, w) && ChainInv(cfg, w) && DecisionInv(cfg, w) && Known(cfg, req)
    ensures var (limit, sel) := (LimitOf(cfg, req), InWindow(cfg, req));
            && AdmittedWhere(w.incrs, w.admitted, sel) <= limit.count * StartsWhere(w.incrs, sel)
            && StartsWhere(w.incrs, sel) <= 1 + LateWhere(cfg, w.incrs, sel)
  {
    LogIsChained(cfg, w);
    AdmittedAreWithin(cfg, w.incrs, w.admitted, req);
    StartsAreLate(cfg, w, req, |w.incrs|);
    assert w.incrs[..|w.incrs|] == w.incrs;
    hide Inv, ChainInv, DecisionInv, WithinLimit, SinceStart, Hits, InWindow, PerStart, StartsWhere, LateWhere,
         AdmittedWhere, Chained;
    WithinLimitPerStart(cfg, w.incrs, req);
    PerStartBounds(LimitOf(cfg, req).count, StartsWhere(w.incrs, InWindow(cfg, req)),
                   WithinLimit(cfg, w.incrs, req), SinceStart(cfg, w.incrs, req));
  }

  /** What arrives in time is at most `count` for a window. */
  lemma {:induction false} PromptPerWindow(cfg: Config, w: World, req: Request, n: nat)
    requires Inv(cfg, w) && DecisionInv(cfg, w) && Known(cfg, req) && n <= |w.incrs|
    ensures var prompt := PromptWhere(cfg, w.incrs[..n], w.admitted, InWindow(cfg, req));
            prompt <= Hits(cfg, w.incrs[..n], req) && prompt <= LimitOf(cfg, req).count
  {
    if n > 0 {
      var last := w.incrs[n - 1];
      assert w.incrs[..n][..n - 1] == w.incrs[..n - 1];
      PromptPerWindow(cfg, w, req, n - 1);
      assert IncrExact(cfg, w, n - 1);
      if SameWindow(cfg, last.req, req) {
        SameWindowHits(cfg, w.incrs[..n - 1], last.req, req);
      }
      hide Inv, WindowEnd, Bucket;
    }
  }

  lemma {:induction false} PromptPlusLate(cfg: Config, incrs: seq<Incr>, admitted: set<nat>, sel: Selection)
    ensures AdmittedWhere(incrs, admitted, sel) <= PromptWhere(cfg, incrs, admitted, sel) + LateWhere(cfg, incrs, sel)
  {
    if incrs != [] {
      PromptPlusLate(cfg, incrs[..|incrs| - 1], admitted, sel);
    }
  }

  /** Under any interleaving, delays and Redis failures: the requests accepted in a window are at most
      `count` for each start of its counter, and at most `count` and the INCRs that arrived when the window
      was over, each time plus the errors its requests met when failing open; and the counter starts once,
      plus at most once for each late INCR. */
  lemma AcceptedPerWindow(cfg: Config, steps: seq<Step>, req: Request)
    requires ValidConfig(cfg) && Known(cfg, req)
    ensures var (w, limit, sel) := (Run(cfg, steps), LimitOf(cfg, req), InWindow(cfg, req));
            var errors := if cfg.failOpen then ErrorsWhere(w.errors, sel) else 0;
            && AcceptedWhere(w.responses, sel) <= limit.count * StartsWhere(w.incrs, sel) + errors
            && AcceptedWhere(w.responses, sel) <= limit.count + LateWhere(cfg, w.incrs, sel) + errors
            && StartsWhere(w.incrs, sel) <= 1 + LateWhere(cfg, w.incrs, sel)
  {
    var w, sel := Run(cfg, steps), InWindow(cfg, req);
    RunKeepsInv(cfg, steps);
    RunChains(cfg, steps);
    RunDecides(cfg, steps);
    ResponsesAddUp(cfg, steps, sel);
    PromptPerWindow(cfg, w, req, |w.incrs|);
    assert w.incrs[..|w.incrs|] == w.incrs;
    hide Run, Inv, ChainInv, DecisionInv, AcceptedWhere, AdmittedWhere, PromptWhere, ErrorsWhere, StartsWhere, LateWhere,
         InWindow;
    AdmittedPerWindow(cfg, w, req);
    PromptPlusLate(cfg, w.incrs, w.admitted, sel);
  }

  // --- When a window lets more than `count` through -------------------

  /** The reply of every INCR of the selection has been compared with the limit. */
  ghost predicate AllCompared(w: World, sel: Selection) {
    forall i | 0 <= i < |w.incrs| && sel(w.incrs[i].req) :: i in w.admitted || i in w.limited
  }

  lemma {:induction false} ComparedAreWithin(cfg: Config, w: World, req: Request, n: nat)
    requires DecisionInv(cfg, w) && Known(cfg, req) && AllCompared(w, InWindow(cfg, req)) && n <= |w.incrs|
    ensures AdmittedWhere(w.incrs[..n], w.admitted, InWindow(cfg, req)) == WithinLimit(cfg, w.incrs[..n], req)
  {
    if n > 0 {
      assert w.incrs[..n][..n - 1] == w.incrs[..n - 1];
      ComparedAreWithin(cfg, w, req, n - 1);
      hide Bucket;
    }
  }

  /** `hits` INCRs, of which `within` returned at most `count`, after `starts` starts and `since` INCRs from
      the last: one more than `count` is within the limit as soon as there are so many and two starts. */
  ghost predicate Progress(count: nat, starts: nat, within: nat, since: nat, hits: nat) {
    && within <= hits
    && (starts == 0 ==> hits == 0 && since == 0)
    && (starts >= 1 ==> since >= 1 && since + starts - 1 <= hits)
    && (within >= hits || within >= count)
    && (starts >= 2 && count >= 1 ==> within >= hits || within >= count + 1)
  }

  lemma ProgressStep(count: nat, starts: nat, within: nat, since: nat, hits: nat)
    requires Progress(count, starts, within, since, hits)
    ensures Progress(count, starts + 1, within + if 1 <= count then 1 else 0, 1, hits + 1)
    ensures since >= 1 ==> Progress(count, starts, within + if since + 1 <= count then 1 else 0, since + 1, hits + 1)
  {
  }

  lemma HitsLast(cfg: Config, incrs: seq<Incr>, req: Request)
    requires Known(cfg, req) && incrs != [] && forall i | 0 <= i < |incrs| :: Known(cfg, incrs[i].req)
    ensures Hits(cfg, incrs, req) ==
            Hits(cfg, incrs[..|incrs| - 1], req) + if SameWindow(cfg, incrs[|incrs| - 1].req, req) then 1 else 0
  {
  }

  lemma {:induction false} WindowProgress(cfg: Config, incrs: seq<Incr>, req: Request)
    requires Known(cfg, req) && Chained(cfg, incrs)
    ensures Progress(LimitOf(cfg, req).count, StartsWhere(incrs, InWindow(cfg, req)),
                     WithinLimit(cfg, incrs, req), SinceStart(cfg, incrs, req), Hits(cfg, incrs, req))
  {
    if incrs == [] {
      assert Progress(LimitOf(cfg, req).count, 0, 0, 0, 0);
    } else {
      hide Chained, Progress, Bucket, SinceStart, WithinLimit, StartsWhere, SameWindow, InWindow, Hits;
      var front, last := incrs[..|incrs| - 1], incrs[|incrs| - 1];
      ChainedKnown(cfg, incrs);
      ChainedFront(cfg, incrs);
      WindowProgress(cfg, front, req);
      HitsLast(cfg, incrs, req);
      if SameWindow(cfg, last.req, req) {
        LastInside(cfg, incrs, req);
        ProgressStep(LimitOf(cfg, req).count, StartsWhere(front, InWindow(cfg, req)), WithinLimit(cfg, front, req),
                     SinceStart(cfg, front, req), Hits(cfg, front, req));
      } else {
        LastOutside(cfg, incrs, req);
      }
    }
  }

  lemma WithinIff(count: nat, starts: nat, within: nat, since: nat, hits: nat)
    requires PerStart(count, starts, within, since) && Progress(count, starts, within, since, hits)
    ensures within <= count <==> count == 0 || starts <= 1 || hits <= count
  {
    if count == 0 {
      assert count * starts == 0;
    } else if starts == 1 {
      assert count * starts == count;
    }
  }

  /** Exactly when: once every INCR of a window has been compared with the limit, the window has let at most
      `count` through, not counting errors, if and only if its counter was started at most once or there were
      no more than `count` INCRs (or the limit is none at all). */
  lemma WindowWithinCountIff(cfg: Config, steps: seq<Step>, req: Request)
    requires ValidConfig(cfg) && Known(cfg, req) && AllCompared(Run(cfg, steps), InWindow(cfg, req))
    ensures var (w, count, sel) := (Run(cfg, steps), LimitOf(cfg, req).count, InWindow(cfg, req));
            var errors := if cfg.failOpen then ErrorsWhere(w.errors, sel) else 0;
            && LogKnown(cfg, w)
            && (AcceptedWhere(w.responses, sel) <= count + errors <==>
                  count == 0 || StartsWhere(w.incrs, sel) <= 1 || Hits(cfg, w.incrs, req) <= count)
  {
    var w, sel := Run(cfg, steps), InWindow(cfg, req);
    RunChains(cfg, steps);
    RunDecides(cfg, steps);
    ResponsesAddUp(cfg, steps, sel);
    ComparedAreWithin(cfg, w, req, |w.incrs|);
    assert w.incrs[..|w.incrs|] == w.incrs;
    LogIsChained(cfg, w);
    hide Run, ChainInv, DecisionInv, AcceptedWhere, AdmittedWhere, ErrorsWhere, StartsWhere, InWindow, WithinLimit, Hits,
         SinceStart, Chained, PerStart, Progress, AllCompared;
    WithinLimitPerStart(cfg, w.incrs, req);
    WindowProgress(cfg, w.incrs, req);
    WithinIff(LimitOf(cfg, req).count, StartsWhere(w.incrs, sel), WithinLimit(cfg, w.incrs, req),
              SinceStart(cfg, w.incrs, req), Hits(cfg, w.incrs, req));
  }

  // --- Per interval --------------------------------------------------

  /** The requests to one endpoint of one tenant that read the clock in [from, from + length). */
  function InInterval(tenant: string, endpoint: string, from: nat, length: nat): Selection {
    (r: Request) => r.tenant == tenant && r.endpoint == endpoint && from <= r.at < from + length
  }

  /** Those of `n` windows from window `b` on. */
  function InWindows(cfg: Config, tenant: string, endpoint: string, b: nat, n: nat): Selection {
    (r: Request) => Known(cfg, r) && r.tenant == tenant && r.endpoint == endpoint && b <= Bucket(cfg, r) < b + n
  }

  lemma {:induction false} PromptMonotone(cfg: Config, incrs: seq<Incr>, admitted: set<nat>, sel: Selection,
                                          sel': Selection)
    requires forall i | 0 <= i < |incrs| && sel(incrs[i].req) :: sel'(incrs[i].req)
    ensures PromptWhere(cfg, incrs, admitted, sel) <= PromptWhere(cfg, incrs, admitted, sel')
  {
    if incrs != [] {
      PromptMonotone(cfg, incrs[..|incrs| - 1], admitted, sel, sel');
    }
  }

  ghost predicate Parts(sel: Selection, a: Selection, b: Selection) {
    && (forall r: Request :: sel(r) <==> a(r) || b(r))
    && (forall r: Request :: !(a(r) && b(r)))
  }

  lemma {:induction false} PromptParts(cfg: Config, incrs: seq<Incr>, admitted: set<nat>, sel: Selection,
                                       a: Selection, b: Selection)
    requires Parts(sel, a, b)
    ensures PromptWhere(cfg, incrs, admitted, sel) ==
            PromptWhere(cfg, incrs, admitted, a) + PromptWhere(cfg, incrs, admitted, b)
  {
    if incrs != [] {
      PromptParts(cfg, incrs[..|incrs| - 1], admitted, sel, a, b);
    }
  }

  lemma {:induction false} NoneSelected(cfg: Config, incrs: seq<Incr>, admitted: set<nat>, sel: Selection)
    requires forall r: Request :: !sel(r)
    ensures PromptWhere(cfg, incrs, admitted, sel) == 0
  {
    if incrs != [] {
      NoneSelected(cfg, incrs[..|incrs| - 1], admitted, sel);
    }
  }

  lemma LastWindowIsPart(cfg: Config, tenant: string, endpoint: string, b: nat, n: nat, last: Request)
    requires n > 0 && Known(cfg, last) && last.tenant == tenant && last.endpoint == endpoint && Bucket(cfg, last) == b + n - 1
    ensures Parts(InWindows(cfg, tenant, endpoint, b, n), InWindows(cfg, tenant, endpoint, b, n - 1), InWindow(cfg, last))
  {
    hide Bucket;
  }

  /** A request of window `b`. */
  function RequestIn(cfg: Config, tenant: string, endpoint: string, b: nat): (r: Request)
    requires Known(cfg, Request(tenant, endpoint, 0))
    ensures r.tenant == tenant && r.endpoint == endpoint && Known(cfg, r) && Bucket(cfg, r) == b
  {
    var window := cfg.limits[(tenant, endpoint)].window;
    QuotientUnique(b * window, b, window);
    Request(tenant, endpoint, b * window)
  }

  /** Room for `n` windows. */
  ghost predicate FitsWindows(passed: nat, count: nat, n: nat) {
    passed <= count * n
  }

  lemma OneMoreFits(passed: nat, more: nat, count: nat, n: nat)
    requires n > 0 && FitsWindows(passed, count, n - 1) && more <= count
    ensures FitsWindows(passed + more, count, n)
  {
    assert count * n == count * (n - 1) + count;
  }

  lemma {:induction false} PromptInWindows(cfg: Config, w: World, tenant: string, endpoint: string, b: nat, n: nat)
    requires Inv(cfg, w) && DecisionInv(cfg, w) && Known(cfg, Request(tenant, endpoint, 0))
    ensures FitsWindows(PromptWhere(cfg, w.incrs, w.admitted, InWindows(cfg, tenant, endpoint, b, n)),
                        cfg.limits[(tenant, endpoint)].count, n)
    decreases n
  {
    var sel := InWindows(cfg, tenant, endpoint, b, n);
    if n == 0 {
      NoneSelected(cfg, w.incrs, w.admitted, sel);
      assert FitsWindows(0, cfg.limits[(tenant, endpoint)].count, 0);
    } else {
      hide Inv, DecisionInv, PromptWhere, InWindow, InWindows, Bucket, Parts, FitsWindows, RequestIn, Hits;
      var last := RequestIn(cfg, tenant, endpoint, b + n - 1);
      var sel', selLast := InWindows(cfg, tenant, endpoint, b, n - 1), InWindow(cfg, last);
      LastWindowIsPart(cfg, tenant, endpoint, b, n, last);
      PromptInWindows(cfg, w, tenant, endpoint, b, n - 1);
      PromptPerWindow(cfg, w, last, |w.incrs|);
      assert w.incrs[..|w.incrs|] == w.incrs;
      PromptParts(cfg, w.incrs, w.admitted, sel, sel', selLast);
      OneMoreFits(PromptWhere(cfg, w.incrs, w.admitted, sel'), PromptWhere(cfg, w.incrs, w.admitted, selLast),
                  LimitOf(cfg, last).count, n);
    }
  }

  /** An interval of `length` instants meets at most floor((length - 1) / window) + 2 windows. */
  lemma WindowsMet(from: nat, length: nat, window: nat)
    requires window >= 1 && length >= 1
    ensures Quotient(from + length - 1, window) - Quotient(from, window) + 1 <= Quotient(length - 1, window) + 2
  {
    hide Quotient;
    var a, c, d := Quotient(from, window), Quotient(length - 1, window), Quotient(from + length - 1, window);
    assert (a + c + 1) * window == a * window + c * window + window;
    MulCancel(d, a + c + 1, window);
  }

  lemma IntervalInWindows(cfg: Config, tenant: string, endpoint: string, from: nat, length: nat, r: Request)
    requires Known(cfg, r) && InInterval(tenant, endpoint, from, length)(r)
    ensures var window := LimitOf(cfg, r).window;
            Quotient(from, window) <= Bucket(cfg, r) <= Quotient(from + length - 1, window)
  {
    QuotientMonotone(from, r.at, LimitOf(cfg, r).window);
    QuotientMonotone(r.at, from + length - 1, LimitOf(cfg, r).window);
  }

  lemma PromptPerInterval(cfg: Config, w: World, tenant: string, endpoint: string, from: nat, length: nat)
    requires Inv(cfg, w) && DecisionInv(cfg, w) && Known(cfg, Request(tenant, endpoint, 0)) && length >= 1
    ensures var limit := cfg.limits[(tenant, endpoint)];
            PromptWhere(cfg, w.incrs, w.admitted, InInterval(tenant, endpoint, from, length)) <=
            limit.count * (Quotient(length - 1, limit.window) + 2)
  {
    hide Inv, DecisionInv, LogKnown, PromptWhere, Quotient, FitsWindows, Bucket;
    assert LogKnown(cfg, w) by {
      InvKnowsLog(cfg, w);
    }
    var limit := cfg.limits[(tenant, endpoint)];
    var first, last := Quotient(from, limit.window), Quotient(from + length - 1, limit.window);
    QuotientMonotone(from, from + length - 1, limit.window);
    var sel, windows := InInterval(tenant, endpoint, from, length), InWindows(cfg, tenant, endpoint, first, last - first + 1);
    forall i | 0 <= i < |w.incrs| && sel(w.incrs[i].req)
      ensures windows(w.incrs[i].req)
    {
      LogHas(cfg, w, i);
      IntervalInWindows(cfg, tenant, endpoint, from, length, w.incrs[i].req);
    }
    PromptMonotone(cfg, w.incrs, w.admitted, sel, windows);
    PromptInWindows(cfg, w, tenant, endpoint, first, last - first + 1);
    WindowsMet(from, length, limit.window);
    MoreWindows(PromptWhere(cfg, w.incrs, w.admitted, windows), limit.count, last - first + 1,
                Quotient(length - 1, limit.window) + 2);
  }

  lemma MoreWindows(passed: nat, count: nat, n: nat, m: nat)
    requires n <= m && FitsWindows(passed, count, n)
    ensures passed <= count * m
  {
    MulMonotone(n, m, count);
  }

  lemma InvKnowsLog(cfg: Config, w: World)
    requires Inv(cfg, w)
    ensures LogKnown(cfg, w)
  {
  }

  lemma LogHas(cfg: Config, w: World, i: nat)
    requires LogKnown(cfg, w) && i < |w.incrs|
    ensures Known(cfg, w.incrs[i].req)
  {
  }

  /** With fixed limits, any interval of length L accepts at most count * (floor((L - 1) / window) + 2) of
      an endpoint's requests, plus its INCRs that arrived after their window and, when failing open, its
      errors. */
  lemma AcceptedPerInterval(cfg: Config, steps: seq<Step>, tenant: string, endpoint: string, from: nat, length: nat)
    requires ValidConfig(cfg) && (tenant, endpoint) in cfg.limits && length >= 1
    ensures var (w, limit) := (Run(cfg, steps), cfg.limits[(tenant, endpoint)]);
            var sel := InInterval(tenant, endpoint, from, length);
            AcceptedWhere(w.responses, sel) <=
              limit.count * (Quotient(length - 1, limit.window) + 2) + LateWhere(cfg, w.incrs, sel)
              + if cfg.failOpen then ErrorsWhere(w.errors, sel) else 0
  {
    var w, sel := Run(cfg, steps), InInterval(tenant, endpoint, from, length);
    RunKeepsInv(cfg, steps);
    RunDecides(cfg, steps);
    ResponsesAddUp(cfg, steps, sel);
    hide Run, Inv, DecisionInv, AcceptedWhere, AdmittedWhere, PromptWhere, ErrorsWhere, LateWhere, Quotient, InInterval;
    PromptPerInterval(cfg, w, tenant, endpoint, from, length);
    PromptPlusLate(cfg, w.incrs, w.admitted, sel);
  }

  /** Over one window length, wherever it starts, at most twice the limit when every INCR arrives in its
      window and Redis answers. */
  lemma AtMostTwicePerWindowLength(cfg: Config, steps: seq<Step>, tenant: string, endpoint: string, from: nat)
    requires ValidConfig(cfg) && (tenant, endpoint) in cfg.limits
    ensures var (w, limit) := (Run(cfg, steps), cfg.limits[(tenant, endpoint)]);
            var sel := InInterval(tenant, endpoint, from, limit.window);
            AcceptedWhere(w.responses, sel) <=
              2 * limit.count + LateWhere(cfg, w.incrs, sel) + if cfg.failOpen then ErrorsWhere(w.errors, sel) else 0
  {
    var window := cfg.limits[(tenant, endpoint)].window;
    AcceptedPerInterval(cfg, steps, tenant, endpoint, from, window);
    QuotientUnique(window - 1, 0, window);
    hide Run, InInterval, LateWhere, AcceptedWhere, ErrorsWhere;
  }

  // --- Retry-After ---------------------------------------------------

  /** The advertised wait ends exactly at the first instant of the next window. */
  lemma RetryAfterIsNextWindow(window: nat, now: nat)
    requires window >= 1
    ensures 1 <= RetryAfter(window, now) <= window
    ensures Quotient(now + RetryAfter(window, now), window) == Quotient(now, window) + 1
    ensures forall t: nat | now <= t < now + RetryAfter(window, now) :: Quotient(t, window) == Quotient(now, window)
  {
    var b := Quotient(now, window);
    assert now % window == now - b * window;
    var left := RetryAfter(window, now);
    assert now + left == b * window + window;
    hide Quotient, RetryAfter;
    assert (b + 1) * window == b * window + window;
    QuotientUnique(now + left, b + 1, window);
    forall t: nat | now <= t < now + left
      ensures Quotient(t, window) == b
    {
      QuotientUnique(t, b, window);
    }
  }
}
