/** Backend health, the reconnect on recovery, and the life of the HTTP clients. */
module BackendHealth {
  /** HTTP clients are numbered in the order they are made. */
  type Client = nat

  datatype State = State(
    healthy: bool,
    failures: nat,            // consecutive
    client: Client,           // the one new requests use
    made: nat,                // how many clients were made
    pending: set<Client>,     // replaced, their deferred close still to run
    closed: seq<Client>,      // every close that completed, in order
    abandoned: seq<Client>)   // every close that raised, in order

  const INIT := State(true, 0, 0, 1, {}, [], [])

  datatype Event =
    | Probe(ok: bool)
    | DeferredClose(client: Client, raised: bool)
    | Aclose(raised: bool)

  // --- Steps ---------------------------------------------------------

  function Recorded(s: State, ok: bool, threshold: int): (State, bool) {
    var s' := if ok then s.(healthy := true, failures := 0)
              else s.(healthy := s.healthy && s.failures + 1 < threshold, failures := s.failures + 1);
    (s', ok && !s.healthy)
  }

  function Reconnected(s: State): State {
    s.(client := s.made, made := s.made + 1, pending := s.pending + {s.client})
  }

  function Probed(s: State, ok: bool, threshold: int): State {
    var (s', recovered) := Recorded(s, ok, threshold);
    if recovered then Reconnected(s') else s'
  }

  function CloseEnded(s: State, c: Client, raised: bool): State {
    if raised then s.(abandoned := s.abandoned + [c]) else s.(closed := s.closed + [c])
  }

  /** A deferred close that is not pending does nothing, so every sequence is a run. */
  function Next(s: State, e: Event, threshold: int): State {
    match e
    case Probe(ok) => Probed(s, ok, threshold)
    case DeferredClose(c, raised) => if c in s.pending then CloseEnded(s.(pending := s.pending - {c}), c, raised) else s
    case Aclose(raised) => CloseEnded(s, s.client, raised)
  }

  function Run(events: seq<Event>, threshold: int): State {
    if events == [] then INIT
    else Next(Run(events[..|events| - 1], threshold), events[|events| - 1], threshold)
  }

  // --- Histories -----------------------------------------------------

  function ProbesOf(events: seq<Event>): seq<bool> {
    if events == [] then []
    else
      var e := events[|events| - 1];
      ProbesOf(events[..|events| - 1]) + if e.Probe? then [e.ok] else []
  }

  /** The last `k` probes failed, and no more than those. */
  ghost predicate TrailingRun(probes: seq<bool>, k: nat) {
    && k <= |probes|
    && (forall i | |probes| - k <= i < |probes| :: !probes[i])
    && (k < |probes| ==> probes[|probes| - k - 1])
  }

  /** Probe `i` is the success that ends a run of at least `n` failures. */
  ghost predicate EndsRun(probes: seq<bool>, i: nat, n: nat)
    requires i < |probes|
  {
    probes[i] && n <= i && forall k | i - n <= k < i :: !probes[k]
  }

  ghost function Recoveries(probes: seq<bool>, n: nat): nat {
    if probes == [] then 0
    else Recoveries(probes[..|probes| - 1], n) + if EndsRun(probes, |probes| - 1, n) then 1 else 0
  }

  function Effective(threshold: int): (n: nat)
    ensures n >= 1
  {
    if threshold < 1 then 1 else threshold
  }

  /** What the state says about the probes so far. */
  ghost predicate Follows(s: State, probes: seq<bool>, threshold: int) {
    && TrailingRun(probes, s.failures)
    && (s.healthy <==> s.failures < Effective(threshold))
    && s.made == 1 + Recoveries(probes, Effective(threshold))
  }

  lemma SuccessEndsRun(probes: seq<bool>, k: nat, n: nat)
    requires TrailingRun(probes, k) && n >= 1
    ensures EndsRun(probes + [true], |probes|, n) <==> k >= n
    ensures !EndsRun(probes + [false], |probes|, n)
    ensures TrailingRun(probes + [true], 0) && TrailingRun(probes + [false], k + 1)
  {
    var after := probes + [true];
    assert forall i | 0 <= i < |probes| :: after[i] == probes[i];
    if k < n && n <= |probes| {
      assert probes[|probes| - k - 1];
      assert after[|probes| - k - 1] && |probes| - n <= |probes| - k - 1;
    }
  }

  lemma ProbeFollows(s: State, probes: seq<bool>, ok: bool, threshold: int)
    requires Follows(s, probes, threshold)
    ensures Follows(Probed(s, ok, threshold), probes + [ok], threshold)
  {
    SuccessEndsRun(probes, s.failures, Effective(threshold));
    assert (probes + [ok])[..|probes|] == probes;
    hide EndsRun, TrailingRun;
  }

  /** For every probe history and threshold, whatever happens to the clients in between: the failure
      count is the length of the trailing run of failures, the backend is healthy exactly while that is
      below the threshold, and a client was made for each long enough run of failures that ended. */
  lemma {:induction false} RunFollows(events: seq<Event>, threshold: int)
    ensures Follows(Run(events, threshold), ProbesOf(events), threshold)
  {
    if events != [] {
      var front, e := events[..|events| - 1], events[|events| - 1];
      RunFollows(front, threshold);
      if e.Probe? {
        ProbeFollows(Run(front, threshold), ProbesOf(front), e.ok, threshold);
      } else {
        assert ProbesOf(events) == ProbesOf(front);
        hide Recoveries, TrailingRun;
      }
    } else {
      assert ProbesOf([]) == [];
    }
  }

  lemma {:induction false} RecoveriesCost(probes: seq<bool>, n: nat)
    requires n >= 1
    ensures Recoveries(probes, n) * (n + 1) + Trailing(probes) <= |probes|
  {
    if probes != [] {
      var front, last := probes[..|probes| - 1], probes[|probes| - 1];
      RecoveriesCost(front, n);
      assert probes == front + [last];
      SuccessEndsRun(front, Trailing(front), n);
      hide EndsRun, TrailingRun;
      if Recoveries(probes, n) > Recoveries(front, n) {
        OneMore(Recoveries(probes, n), n + 1);
      }
    }
  }

  lemma OneMore(a: nat, b: nat)
    requires a > 0
    ensures a * b == (a - 1) * b + b
  {
  }

  function Trailing(probes: seq<bool>): (k: nat)
    ensures TrailingRun(probes, k)
  {
    if probes == [] || probes[|probes| - 1] then 0
    else
      var k := Trailing(probes[..|probes| - 1]);
      assert probes == probes[..|probes| - 1] + [false];
      k + 1
  }

  /** Reconnects are rare: each takes at least `threshold` failures and one success of its own. */
  lemma ReconnectsBounded(events: seq<Event>, threshold: int)
    ensures (Run(events, threshold).made - 1) * (Effective(threshold) + 1) <= |ProbesOf(events)|
  {
    RunFollows(events, threshold);
    RecoveriesCost(ProbesOf(events), Effective(threshold));
  }

  /** `rounds` outages of exactly `n` failed probes, each followed by a success. */
  function Outages(n: nat, rounds: nat): seq<Event> {
    if rounds == 0 then [] else Outages(n, rounds - 1) + Failures(n) + [Probe(true)]
  }

  function Failures(n: nat): seq<Event> {
    seq(n, _ => Probe(false))
  }

  lemma {:induction false} FailuresRun(before: seq<Event>, n: nat, k: nat, threshold: int)
    requires n == Effective(threshold) && k <= n && Run(before, threshold).failures == 0
    ensures Run(before, threshold).healthy
    ensures var (s, s') := (Run(before, threshold), Run(before + Failures(k), threshold));
            s' == s.(failures := k, healthy := k < n)
    ensures |ProbesOf(before + Failures(k))| == |ProbesOf(before)| + k
  {
    RunFollows(before, threshold);
    if k == 0 {
      assert before + Failures(0) == before;
    } else {
      FailuresRun(before, n, k - 1, threshold);
      var events := before + Failures(k);
      assert events == before + Failures(k - 1) + [Probe(false)];
      RunSnoc(before + Failures(k - 1), Probe(false), threshold);
      hide Run, ProbesOf;
    }
  }

  lemma RunSnoc(events: seq<Event>, e: Event, threshold: int)
    ensures Run(events + [e], threshold) == Next(Run(events, threshold), e, threshold)
    ensures ProbesOf(events + [e]) == ProbesOf(events) + if e.Probe? then [e.ok] else []
  {
    assert (events + [e])[..|events|] == events;
  }

  lemma OutageReconnects(before: seq<Event>, n: nat, threshold: int)
    requires n == Effective(threshold) && Run(before, threshold).failures == 0
    ensures var (s, s') := (Run(before, threshold), Run(before + Failures(n) + [Probe(true)], threshold));
            s'.made == s.made + 1 && s'.failures == 0
    ensures |ProbesOf(before + Failures(n) + [Probe(true)])| == |ProbesOf(before)| + (n + 1)
  {
    FailuresRun(before, n, n, threshold);
    RunSnoc(before + Failures(n), Probe(true), threshold);
    hide Run, ProbesOf, Failures, Effective;
  }

  lemma {:induction false} OutagesMake(rounds: nat, threshold: int)
    ensures var s := Run(Outages(Effective(threshold), rounds), threshold); s.made == rounds + 1 && s.failures == 0
  {
    if rounds > 0 {
      hide Run, Failures;
      OutagesMake(rounds - 1, threshold);
      OutageReconnects(Outages(Effective(threshold), rounds - 1), Effective(threshold), threshold);
    }
  }

  lemma {:induction false} OutagesLength(rounds: nat, n: nat, threshold: int)
    requires n == Effective(threshold)
    ensures |ProbesOf(Outages(n, rounds))| == rounds * (n + 1)
  {
    if rounds == 0 {
      assert ProbesOf([]) == [];
    } else {
      hide Run, Failures, ProbesOf, Effective;
      OutagesLength(rounds - 1, n, threshold);
      OutagesMake(rounds - 1, threshold);
      OutageReconnects(Outages(n, rounds - 1), n, threshold);
      assert |ProbesOf(Outages(n, rounds))| == (rounds - 1) * (n + 1) + (n + 1);
      hide Outages;
      OneMore(rounds, n + 1);
    }
  }

  /** The bound is reached, for every threshold and any number of outages. */
  lemma OutagesReachBound(rounds: nat, threshold: int)
    ensures var (n, events) := (Effective(threshold), Outages(Effective(threshold), rounds));
            && Run(events, threshold).made - 1 == rounds
            && |ProbesOf(events)| == rounds * (n + 1)
  {
    OutagesMake(rounds, threshold);
    OutagesLength(rounds, Effective(threshold), threshold);
  }

  // --- Clients -------------------------------------------------------

  /** How often a client is waiting for its close, was closed, or had its close raise. */
  function Owners(s: State, c: Client): nat {
    (if c in s.pending then 1 else 0) + multiset(s.closed)[c] + multiset(s.abandoned)[c]
  }

  /** Event `j` is a successful probe of an unhealthy backend, which makes it reconnect. */
  ghost predicate Recovers(events: seq<Event>, j: nat, threshold: int)
    requires j < |events|
  {
    events[j] == Probe(true) && !Run(events[..j], threshold).healthy
  }

  /** Event `i` closes the backend, and no reconnect follows it before `j`. */
  ghost predicate ClosedSince(events: seq<Event>, i: nat, j: nat, threshold: int)
    requires j <= |events|
  {
    i < j && events[i].Aclose? && forall k | i < k < j :: !Recovers(events, k, threshold)
  }

  /** The current client has been closed by the backend. */
  ghost predicate IsDown(events: seq<Event>, threshold: int) {
    exists i: nat :: ClosedSince(events, i, |events|, threshold)
  }

  /** Event `j` closes or replaces a client that the backend has closed already. */
  ghost predicate ClosesAgain(events: seq<Event>, i: nat, j: nat, threshold: int)
    requires j < |events|
  {
    ClosedSince(events, i, j, threshold) && (events[j].Aclose? || Recovers(events, j, threshold))
  }

  ghost predicate ClosedTwice(events: seq<Event>, threshold: int) {
    exists i: nat, j: nat | j < |events| :: ClosesAgain(events, i, j, threshold)
  }

  lemma RecoversPrefix(events: seq<Event>, e: Event, j: nat, threshold: int)
    requires j < |events|
    ensures Recovers(events + [e], j, threshold) == Recovers(events, j, threshold)
  {
    assert (events + [e])[..j] == events[..j];
  }

  lemma ClosedSincePrefix(events: seq<Event>, e: Event, i: nat, j: nat, threshold: int)
    requires j <= |events|
    ensures ClosedSince(events + [e], i, j, threshold) == ClosedSince(events, i, j, threshold)
  {
    hide Recovers;
    forall k | i < k < j
      ensures Recovers(events + [e], k, threshold) == Recovers(events, k, threshold)
    {
      RecoversPrefix(events, e, k, threshold);
    }
  }

  lemma LastRecovers(events: seq<Event>, e: Event, threshold: int)
    ensures Recovers(events + [e], |events|, threshold) <==> e == Probe(true) && !Run(events, threshold).healthy
  {
    assert (events + [e])[..|events|] == events;
  }

  lemma DownAfter(events: seq<Event>, e: Event, threshold: int)
    ensures IsDown(events + [e], threshold) <==>
              e.Aclose? || (IsDown(events, threshold) && !Recovers(events + [e], |events|, threshold))
  {
    hide Recovers;
    var after, n := events + [e], |events|;
    var m := |after|;
    if e.Aclose? {
      assert ClosedSince(after, n, m, threshold);
    }
    if i: nat :| ClosedSince(events, i, n, threshold) && !Recovers(after, n, threshold) {
      ClosedSincePrefix(events, e, i, n, threshold);
      assert ClosedSince(after, i, m, threshold);
    }
    if i: nat :| ClosedSince(after, i, m, threshold) && i < n {
      assert ClosedSince(after, i, n, threshold);
      ClosedSincePrefix(events, e, i, n, threshold);
    }
  }

  lemma TwiceAfter(events: seq<Event>, e: Event, threshold: int)
    ensures ClosedTwice(events + [e], threshold) <==>
              || ClosedTwice(events, threshold)
              || (IsDown(events, threshold) && (e.Aclose? || Recovers(events + [e], |events|, threshold)))
  {
    hide Recovers, ClosedSince;
    var after, n := events + [e], |events|;
    forall i: nat, j: nat | j < n
      ensures ClosesAgain(after, i, j, threshold) == ClosesAgain(events, i, j, threshold)
    {
      RecoversPrefix(events, e, j, threshold);
      ClosedSincePrefix(events, e, i, j, threshold);
    }
    forall i: nat
      ensures ClosesAgain(after, i, n, threshold) <==>
                ClosedSince(events, i, n, threshold) && (e.Aclose? || Recovers(after, n, threshold))
    {
      ClosedSincePrefix(events, e, i, n, threshold);
    }
  }

  /** Every client made is exactly one of: the current one, waiting for its deferred close, closed once,
      or given up because its close raised.  Once the backend is closed, so is the current one. */
  ghost predicate Accounted(s: State, down: bool) {
    forall c: Client | c < s.made :: Owners(s, c) == if c == s.client && !down then 0 else 1
  }

  /** What holds in every run: the current client is the newest and not waiting for a close. */
  ghost predicate ClientInv(s: State, down: bool) {
    && s.client + 1 == s.made && s.client !in s.pending
    && (forall c: Client | c in s.pending || c in s.closed || c in s.abandoned :: c < s.made)
    && (forall c: Client | c < s.client :: Owners(s, c) >= 1)
    && (Owners(s, s.client) >= 1 <==> down)
  }

  lemma ClosedOwners(s: State, c: Client, raised: bool, d: Client)
    ensures Owners(CloseEnded(s, c, raised), d) == Owners(s, d) + if c == d then 1 else 0
  {
  }

  /** How one event changes the owners: a close by the backend or a reconnect adds one to the current
      client, and nothing else changes any. */
  lemma NextOwners(s: State, e: Event, threshold: int, c: Client)
    requires s.client !in s.pending
    ensures Owners(Next(s, e, threshold), c) ==
            Owners(s, c) + if c == s.client && (e.Aclose? || (e == Probe(true) && !s.healthy)) then 1 else 0
  {
    match e
    case Probe(_) =>
    case DeferredClose(d, raised) =>
      if d in s.pending {
        ClosedOwners(s.(pending := s.pending - {d}), d, raised, c);
      }
    case Aclose(raised) => ClosedOwners(s, s.client, raised, c);
  }

  lemma NextClients(s: State, e: Event, threshold: int)
    ensures var (s', recovers) := (Next(s, e, threshold), e == Probe(true) && !s.healthy);
            && s'.made == s.made + (if recovers then 1 else 0)
            && s'.client == (if recovers then s.made else s.client)
            && s'.pending <= s.pending + (if recovers then {s.client} else {})
            && (forall c | c in s'.closed :: c in s.closed || c in s.pending || c == s.client)
            && (forall c | c in s'.abandoned :: c in s.abandoned || c in s.pending || c == s.client)
  {
  }

  lemma NextKeepsClients(s: State, e: Event, threshold: int, down: bool)
    requires ClientInv(s, down)
    ensures ClientInv(Next(s, e, threshold), e.Aclose? || (down && !(e == Probe(true) && !s.healthy)))
  {
    NextClients(s, e, threshold);
    forall c: Client
      ensures Owners(Next(s, e, threshold), c) ==
              Owners(s, c) + if c == s.client && (e.Aclose? || (e == Probe(true) && !s.healthy)) then 1 else 0
    {
      NextOwners(s, e, threshold, c);
    }
    NotMadeNotOwned(s, s.made);
    hide Next, Owners;
  }

  lemma NextAccounts(s: State, e: Event, threshold: int, down: bool)
    requires ClientInv(s, down)
    ensures var recovers := e == Probe(true) && !s.healthy;
            Accounted(Next(s, e, threshold), e.Aclose? || (down && !recovers)) <==>
            Accounted(s, down) && !(down && (e.Aclose? || recovers))
  {
    var s' := Next(s, e, threshold);
    NextClients(s, e, threshold);
    forall c: Client
      ensures Owners(s', c) ==
              Owners(s, c) + if c == s.client && (e.Aclose? || (e == Probe(true) && !s.healthy)) then 1 else 0
    {
      NextOwners(s, e, threshold, c);
    }
    NotMadeNotOwned(s, s.made);
    hide Next, Owners;
  }

  lemma NotMadeNotOwned(s: State, c: Client)
    requires c !in s.pending && c !in s.closed && c !in s.abandoned
    ensures Owners(s, c) == 0
  {
  }

  lemma {:induction false} RunClients(events: seq<Event>, threshold: int)
    ensures ClientInv(Run(events, threshold), IsDown(events, threshold))
    ensures Accounted(Run(events, threshold), IsDown(events, threshold)) <==> !ClosedTwice(events, threshold)
  {
    if events != [] {
      var front, e := events[..|events| - 1], events[|events| - 1];
      assert events == front + [e];
      RunClients(front, threshold);
      NextKeepsClients(Run(front, threshold), e, threshold, IsDown(front, threshold));
      NextAccounts(Run(front, threshold), e, threshold, IsDown(front, threshold));
      DownAfter(front, e, threshold);
      TwiceAfter(front, e, threshold);
      LastRecovers(front, e, threshold);
      hide Accounted, ClientInv, Next, IsDown, ClosedTwice, Recovers;
    }
  }

  /** Every client is accounted for, none leaked and none closed twice, exactly in the runs in which a
      closed backend is neither closed again nor recovers. */
  lemma ClientsAccountedIff(events: seq<Event>, threshold: int)
    ensures Accounted(Run(events, threshold), IsDown(events, threshold)) <==> !ClosedTwice(events, threshold)
  {
    RunClients(events, threshold);
  }

  /** So the gateway's own order is safe: it stops its probes before it closes each backend once. */
  lemma AcloseLastIsSafe(events: seq<Event>, threshold: int)
    requires forall i, j | 0 <= i < j < |events| && events[i].Aclose? :: events[j].DeferredClose?
    ensures Accounted(Run(events, threshold), IsDown(events, threshold))
  {
    ClientsAccountedIff(events, threshold);
    assert !ClosedTwice(events, threshold);
  }

  /** How many closes take effect in a run and return, or raise. */
  ghost function Closes(events: seq<Event>, raised: bool, threshold: int): nat {
    if events == [] then 0
    else
      var front, e := events[..|events| - 1], events[|events| - 1];
      Closes(front, raised, threshold)
      + if (e.Aclose? && e.raised == raised)
           || (e.DeferredClose? && e.raised == raised && e.client in Run(front, threshold).pending)
        then 1 else 0
  }

  /** A client counts as closed for each close that returned, and as given up for each that raised. */
  lemma {:induction false} ClosedAsReturned(events: seq<Event>, threshold: int)
    ensures |Run(events, threshold).closed| == Closes(events, false, threshold)
    ensures |Run(events, threshold).abandoned| == Closes(events, true, threshold)
  {
    if events != [] {
      ClosedAsReturned(events[..|events| - 1], threshold);
    }
  }
}
