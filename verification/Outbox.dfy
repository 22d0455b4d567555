/** The outbox dispatcher as a step machine: producers commit rows and send notifications, the
    dispatcher scans, delivers, marks and parks, and it may crash between any two of its steps. */
module Outbox {

  type RowId = nat

  datatype Pc =
    | Down                          // not running
    | Scanning                      // about to fetch the unprocessed rows
    | Delivering(batch: seq<RowId>) // fetched rows still to deliver
    | Marking(batch: seq<RowId>)    // batch[0] delivered, its UPDATE not yet done
    | Subscribing                   // startup scan done, add_listener not yet
    | Parked                        // waiting for the doorbell or the poll timeout

  datatype World = World(
    rows: map<RowId, bool>,  // committed rows; true once processed_at is set
    log: seq<RowId>,         // rows delivered to the sink, in order
    pc: Pc,
    listening: bool,
    doorbell: bool,
    inFlight: set<RowId>,    // notifications sent to the listener and not yet arrived
    // history
    lost: set<RowId>,        // rows whose notification was lost
    unheard: set<RowId>,     // rows committed while nobody listened
    fetched: set<RowId>,     // the table's rows at the latest fetch
    scans: nat,
    crashes: nat,
    gaps: seq<RowId>,        // rows delivered and not marked when a crash came, in order
    gapAt: set<nat>,         // length of the log at each of those crashes
    inOrder: bool)           // every commit so far had the largest id

  const INIT := World(map[], [], Down, false, false, {}, {}, {}, {}, 0, 0, [], {}, true)

  datatype Step =
    | Commit(id: RowId)
    | NotifyArrives(id: RowId)
    | NotifyLost(id: RowId)
    | Start
    | Fetch(backlog: seq<RowId>)
    | Deliver
    | Mark
    | EndScan
    | Subscribe
    | Ring
    | PollTimeout
    | Stop
    | Crash

  ghost predicate Unprocessed(rows: map<RowId, bool>, r: RowId) {
    r in rows && !rows[r]
  }

  ghost predicate Increasing(s: seq<RowId>) {
    forall i, j | 0 <= i < j < |s| :: s[i] < s[j]
  }

  /** The result of `WHERE processed_at IS NULL ORDER BY id`. */
  ghost predicate IsBacklog(rows: map<RowId, bool>, backlog: seq<RowId>) {
    Increasing(backlog) && forall r: RowId :: r in backlog <==> Unprocessed(rows, r)
  }

  /** `stop` is looked at wherever the loop would park: after a scan, and once add_listener is done. */
  ghost predicate Enabled(w: World, step: Step) {
    match step
    case Commit(id) => id !in w.rows
    case NotifyArrives(id) => id in w.inFlight
    case NotifyLost(id) => id in w.inFlight
    case Start => w.pc.Down?
    case Fetch(backlog) => w.pc.Scanning? && IsBacklog(w.rows, backlog)
    case Deliver => w.pc.Delivering? && w.pc.batch != []
    case Mark => w.pc.Marking? && w.pc.batch != []
    case EndScan => w.pc == Delivering([])
    case Subscribe => w.pc.Subscribing?
    case Ring => w.pc.Parked? && w.doorbell
    case PollTimeout => w.pc.Parked?
    case Stop => (w.pc == Delivering([]) && w.listening) || w.pc.Subscribing?
    case Crash => !w.pc.Down?
  }

  /** The process is gone, and with it the connection and everything in flight on it. */
  ghost function Halt(w: World): World {
    w.(pc := Down, listening := false, doorbell := false, inFlight := {}, lost := w.lost + w.inFlight)
  }

  ghost function Next(w: World, step: Step): World {
    if !Enabled(w, step) then w
    else
      match step
      case Commit(id) =>
        var w' := w.(rows := w.rows[id := false], inOrder := w.inOrder && forall r | r in w.rows :: r < id);
        if w.listening then w'.(inFlight := w.inFlight + {id}) else w'.(unheard := w.unheard + {id})
      case NotifyArrives(id) => w.(inFlight := w.inFlight - {id}, doorbell := true)
      case NotifyLost(id) => w.(inFlight := w.inFlight - {id}, lost := w.lost + {id})
      case Start => w.(pc := Scanning)
      case Fetch(backlog) => w.(pc := Delivering(backlog), fetched := w.rows.Keys, scans := w.scans + 1)
      case Deliver => w.(log := w.log + [w.pc.batch[0]], pc := Marking(w.pc.batch))
      case Mark => w.(rows := w.rows[w.pc.batch[0] := true], pc := Delivering(w.pc.batch[1..]))
      case EndScan => w.(pc := if w.listening then Parked else Subscribing)
      case Subscribe => w.(pc := Parked, listening := true)
      case Ring => w.(pc := Scanning, doorbell := false)
      case PollTimeout => w.(pc := Scanning, doorbell := false)
      case Stop => Halt(w)
      case Crash =>
        var w' := Halt(w).(crashes := w.crashes + 1);
        if w.pc.Marking? && w.pc.batch != [] then
          w'.(gaps := w.gaps + [w.pc.batch[0]], gapAt := w.gapAt + {|w.log|})
        else w'
  }

  /** Steps that are not enabled leave the world unchanged, so every sequence is a run. */
  ghost function Run(w: World, steps: seq<Step>): World {
    if steps == [] then w
    else Next(Run(w, steps[..|steps| - 1]), steps[|steps| - 1])
  }

  lemma RunSnoc(w: World, steps: seq<Step>, step: Step)
    ensures Run(w, steps + [step]) == Next(Run(w, steps), step)
  {
    assert (steps + [step])[..|steps|] == steps;
  }

  // --- The batch -----------------------------------------------------

  ghost function BatchOf(pc: Pc): seq<RowId> {
    if pc.Delivering? || pc.Marking? then pc.batch else []
  }

  ghost predicate BatchInv(w: World) {
    && Increasing(BatchOf(w.pc))
    && (forall r | r in BatchOf(w.pc) :: Unprocessed(w.rows, r))
    && (w.pc.Marking? ==> w.pc.batch != [])
  }

  lemma TailKept(b: seq<RowId>)
    requires b != [] && Increasing(b)
    ensures Increasing(b[1..])
    ensures forall r: RowId :: r in b[1..] <==> r in b && r != b[0]
  {
    forall r: RowId | r in b && r != b[0]
      ensures r in b[1..]
    {
      var i :| 0 <= i < |b| && b[i] == r;
      assert b[1..][i - 1] == r;
    }
  }

  lemma MarkKeepsBatch(w: World)
    requires BatchInv(w) && Enabled(w, Mark)
    ensures BatchInv(Next(w, Mark))
  {
    TailKept(w.pc.batch);
    hide Increasing;
  }

  lemma BatchKept(w: World, step: Step)
    requires BatchInv(w)
    ensures BatchInv(Next(w, step))
  {
    if step.Mark? && Enabled(w, step) {
      MarkKeepsBatch(w);
    }
  }

  lemma {:induction false} RunBatch(steps: seq<Step>)
    ensures BatchInv(Run(INIT, steps))
  {
    hide BatchInv, Next;
    if steps == [] {
      assert BatchInv(INIT) by { InitBatch(); }
    } else {
      RunBatch(steps[..|steps| - 1]);
      BatchKept(Run(INIT, steps[..|steps| - 1]), steps[|steps| - 1]);
    }
  }

  lemma InitBatch()
    ensures BatchInv(INIT)
  {
  }
}
