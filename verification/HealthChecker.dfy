/** Backend adapters as the objects they are, and one round of the health checker over them. */
module HealthChecker {
  import opened BackendHealth

  class BackendAdapter {
    var healthy: bool
    var consecutiveFailures: nat
    var client: Client
    var made: nat
    var pending: set<Client>
    var closed: seq<Client>
    var abandoned: seq<Client>

    ghost function State(): State
      reads this
    {
      BackendHealth.State(healthy, consecutiveFailures, client, made, pending, closed, abandoned)
    }

    constructor ()
      ensures State() == INIT
    {
      healthy, consecutiveFailures := true, 0;
      client, made, pending, closed, abandoned := 0, 1, {}, [], [];
    }

    /** The result tells the recovery edge: healthy again after having been unhealthy. */
    method RecordHealth(ok: bool, threshold: int) returns (recovered: bool)
      modifies this
      ensures (State(), recovered) == Recorded(old(State()), ok, threshold)
      ensures recovered <==> !old(healthy) && healthy
    {
      var wasUnhealthy := !healthy;
      if ok {
        healthy, consecutiveFailures := true, 0;
      } else {
        consecutiveFailures := consecutiveFailures + 1;
        if consecutiveFailures >= threshold {
          healthy := false;
        }
      }
      return ok && wasUnhealthy;
    }

    method MakeClient() returns (c: Client)
      modifies this
      ensures c == old(made) && State() == old(State()).(made := old(made) + 1)
    {
      c, made := made, made + 1;
    }

    method Reconnect()
      modifies this
      ensures State() == Reconnected(old(State()))
    {
      var replaced := client;
      client := MakeClient();
      pending := pending + {replaced};
    }

    /** The end of a deferred close, its grace over; a close that raises is logged and forgotten. */
    method DeferredClose(c: Client, raised: bool)
      modifies this
      ensures State() == Next(old(State()), BackendHealth.DeferredClose(c, raised), 0)
    {
      if c in pending {
        pending := pending - {c};
        if raised {
          abandoned := abandoned + [c];
        } else {
          closed := closed + [c];
        }
      }
    }

    method Aclose(raised: bool)
      modifies this
      ensures State() == Next(old(State()), BackendHealth.Aclose(raised), 0)
    {
      if raised {
        abandoned := abandoned + [client];
      } else {
        closed := closed + [client];
      }
    }
  }

  /** How one probe ends. */
  datatype Health = Answered(ok: bool) | Raised

  function Alive(h: Health): bool {
    h.Answered? && h.ok
  }

  class HealthChecker {
    const adapters: seq<BackendAdapter>
    const threshold: int

    constructor (adapters: seq<BackendAdapter>, threshold: int)
      ensures this.adapters == adapters && this.threshold == threshold
    {
      this.adapters, this.threshold := adapters, threshold;
    }

    /** One round over adapters that are distinct objects: each gets its own probe, and no adapter's
        probe touches another's state.  A probe that raises counts as a failed one. */
    method CheckOnce(answers: seq<Health>)
      requires |answers| == |adapters|
      requires forall i, j | 0 <= i < j < |adapters| :: adapters[i] != adapters[j]
      modifies set a | a in adapters
      ensures forall i | 0 <= i < |adapters| ::
                adapters[i].State() == Probed(old(adapters[i].State()), Alive(answers[i]), threshold)
      ensures forall i | 0 <= i < |adapters| ::
                if answers[i] == Answered(true) then adapters[i].healthy && adapters[i].consecutiveFailures == 0
                else adapters[i].consecutiveFailures == old(adapters[i].consecutiveFailures) + 1
    {
      for i := 0 to |adapters|
        invariant forall j | 0 <= j < i ::
                    adapters[j].State() == Probed(old(adapters[j].State()), Alive(answers[j]), threshold)
        invariant forall j | i <= j < |adapters| :: adapters[j].State() == old(adapters[j].State())
      {
        var ok := Alive(answers[i]);
        var recovered := adapters[i].RecordHealth(ok, threshold);
        if recovered {
          adapters[i].Reconnect();
        }
      }
    }
  }
}
