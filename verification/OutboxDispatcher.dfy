/** One scan of the dispatcher, as the code performs it on the table and the sink, and its place
    in the step machine. */
module OutboxDispatcher {
  import opened Wrappers
  import opened Outbox

  /** The payload column: JSON text, or a value the driver has decoded already. */
  datatype Cell = JsonText(text: string) | JsonValue(json: Json)
  datatype Json = Parsed(text: string)

  datatype Row = Row(id: RowId, eventType: string, payload: Cell, occurredAt: int)
  datatype OutboxEvent = OutboxEvent(id: RowId, eventType: string, payload: Json, occurredAt: int)

  /** What `json.loads` makes of a text; None when it raises. */
  type Loads = string -> Option<Json>

  function Decoded(row: Row, loads: Loads): Option<Json> {
    match row.payload
    case JsonText(text) => loads(text)
    case JsonValue(json) => Some(json)
  }

  function EventOf(row: Row, loads: Loads): OutboxEvent
    requires Decoded(row, loads).Some?
  {
    OutboxEvent(row.id, row.eventType, Decoded(row, loads).value, row.occurredAt)
  }

  ghost predicate AllDecode(rows: seq<Row>, loads: Loads) {
    forall i | 0 <= i < |rows| :: Decoded(rows[i], loads).Some?
  }

  function Events(rows: seq<Row>, loads: Loads): seq<OutboxEvent>
    requires AllDecode(rows, loads)
  {
    seq(|rows|, i requires 0 <= i < |rows| => EventOf(rows[i], loads))
  }

  /** An event carries its own row's id, type and time, and its payload decoded. */
  lemma EventsAreTheirRows(rows: seq<Row>, loads: Loads, i: nat)
    requires AllDecode(rows, loads) && i < |rows|
    ensures var (event, row) := (Events(rows, loads)[i], rows[i]);
            && event.id == row.id && event.eventType == row.eventType && event.occurredAt == row.occurredAt
            && (row.payload.JsonText? ==> loads(row.payload.text) == Some(event.payload))
            && (row.payload.JsonValue? ==> event.payload == row.payload.json)
  {
  }

  /** Only JSON text can fail to decode; a value the driver has decoded is taken as it is. */
  lemma DecodesIff(row: Row, loads: Loads)
    ensures Decoded(row, loads) == None <==> row.payload.JsonText? && loads(row.payload.text) == None
  {
  }

  function Ids(rows: seq<Row>): seq<RowId> {
    seq(|rows|, i requires 0 <= i < |rows| => rows[i].id)
  }

  function MarkAll(processed: map<RowId, bool>, ids: seq<RowId>): map<RowId, bool> {
    if ids == [] then processed
    else MarkAll(processed, ids[..|ids| - 1])[ids[|ids| - 1] := true]
  }

  class RecordingSink {
    var events: seq<OutboxEvent>

    constructor ()
      ensures events == []
    {
      events := [];
    }

    method Deliver(event: OutboxEvent)
      modifies this
      ensures events == old(events) + [event]
    {
      events := events + [event];
    }
  }

  class Table {
    var processed: map<RowId, bool>

    constructor (processed: map<RowId, bool>)
      ensures this.processed == processed
    {
      this.processed := processed;
    }

    method SetProcessed(id: RowId)
      modifies this
      ensures processed == if id in old(processed) then old(processed)[id := true] else old(processed)
    {
      if id in processed {
        processed := processed[id := true];
      }
    }
  }

  /** One scan.  `fetched` is the answer to the SELECT; None when the table does not exist yet.  A payload
      that does not decode raises: the rows before it are delivered and marked, it and the later ones are
      neither, so the scan ends as a crash between two rows and the next scan starts with that row. */
  method DeliverBacklog(table: Table, sink: RecordingSink, fetched: Option<seq<Row>>, loads: Loads)
    returns (delivered: nat, raised: bool)
    requires fetched.Some? ==> IsBacklog(table.processed, Ids(fetched.value))
    modifies table, sink
    ensures fetched.None? ==>
              delivered == 0 && !raised && sink.events == old(sink.events) && table.processed == old(table.processed)
    ensures fetched.Some? ==>
              && delivered <= |fetched.value| && AllDecode(fetched.value[..delivered], loads)
              && (if raised then delivered < |fetched.value| && Decoded(fetched.value[delivered], loads) == None
                  else delivered == |fetched.value|)
              && sink.events == old(sink.events) + Events(fetched.value[..delivered], loads)
              && (forall i | 0 <= i < delivered ::
                    var (event, row) := (sink.events[|old(sink.events)| + i], fetched.value[i]);
                    && event.id == row.id && event.eventType == row.eventType && event.occurredAt == row.occurredAt
                    && (row.payload.JsonText? ==> loads(row.payload.text) == Some(event.payload))
                    && (row.payload.JsonValue? ==> event.payload == row.payload.json))
              && table.processed == MarkAll(old(table.processed), Ids(fetched.value[..delivered]))
  {
    raised := false;
    if fetched.None? {
      return 0, false;
    }
    var rows := fetched.value;
    delivered := 0;
    while delivered < |rows|
      invariant delivered <= |rows| && AllDecode(rows[..delivered], loads)
      invariant sink.events == old(sink.events) + Events(rows[..delivered], loads)
      invariant table.processed == MarkAll(old(table.processed), Ids(rows[..delivered]))
      invariant table.processed.Keys == old(table.processed.Keys)
    {
      var row := rows[delivered];
      if Decoded(row, loads).None? {
        return delivered, true;
      }
      assert Ids(rows)[delivered] == row.id && row.id in Ids(rows);
      assert Unprocessed(old(table.processed), row.id);
      assert Events(rows[..delivered + 1], loads) == Events(rows[..delivered], loads) + [EventOf(row, loads)];
      assert Ids(rows[..delivered + 1])[..delivered] == Ids(rows[..delivered]);
      sink.Deliver(EventOf(row, loads));
      table.SetProcessed(row.id);
      delivered := delivered + 1;
    }
    assert rows[..|rows|] == rows;
  }

  /** The machine steps of an uninterrupted scan of `n` rows. */
  function ScanSteps(n: nat): seq<Step> {
    if n == 0 then [] else ScanSteps(n - 1) + [Deliver] + [Mark]
  }

  lemma DeliverThenMark(w: World, batch: seq<RowId>)
    requires w.pc == Delivering(batch) && batch != []
    ensures Next(Next(w, Deliver), Mark) ==
            w.(rows := w.rows[batch[0] := true], log := w.log + [batch[0]], pc := Delivering(batch[1..]))
  {
    hide IsBacklog;
  }

  /** An uninterrupted scan in the step machine has exactly the effect of `DeliverBacklog`. */
  lemma {:induction false} ScanRuns(w: World, batch: seq<RowId>, n: nat)
    requires w.pc == Delivering(batch) && n <= |batch|
    ensures Run(w, ScanSteps(n)) ==
            w.(rows := MarkAll(w.rows, batch[..n]), log := w.log + batch[..n], pc := Delivering(batch[n..]))
  {
    hide Next, IsBacklog;
    if n == 0 {
      assert batch[..0] == [] && batch[0..] == batch && w.log + [] == w.log;
    } else {
      ScanRuns(w, batch, n - 1);
      OneRowScanned(w, batch, n);
    }
  }

  lemma OneRowScanned(w: World, batch: seq<RowId>, n: nat)
    requires w.pc == Delivering(batch) && 0 < n <= |batch|
    requires Run(w, ScanSteps(n - 1)) ==
             w.(rows := MarkAll(w.rows, batch[..n - 1]), log := w.log + batch[..n - 1], pc := Delivering(batch[n - 1..]))
    ensures Run(w, ScanSteps(n)) ==
            w.(rows := MarkAll(w.rows, batch[..n]), log := w.log + batch[..n], pc := Delivering(batch[n..]))
  {
    hide Run, Next, IsBacklog;
    RunSnoc(w, ScanSteps(n - 1), Deliver);
    RunSnoc(w, ScanSteps(n - 1) + [Deliver], Mark);
    DeliverThenMark(Run(w, ScanSteps(n - 1)), batch[n - 1..]);
    assert MarkAll(w.rows, batch[..n]) == MarkAll(w.rows, batch[..n - 1])[batch[n - 1] := true] by {
      assert batch[..n][..n - 1] == batch[..n - 1];
    }
    hide MarkAll;
    assert batch[n - 1..][1..] == batch[n..];
    assert w.log + batch[..n - 1] + [batch[n - 1]] == w.log + batch[..n];
  }

  /** After a completed scan no row of the fetched backlog is unprocessed, and no other row changed. */
  lemma {:induction false} MarkAllMarks(processed: map<RowId, bool>, ids: seq<RowId>, r: RowId)
    ensures r in MarkAll(processed, ids) <==> r in processed || r in ids
    ensures r in ids ==> MarkAll(processed, ids)[r]
    ensures r in processed && r !in ids ==> MarkAll(processed, ids)[r] == processed[r]
  {
    if ids != [] {
      MarkAllMarks(processed, ids[..|ids| - 1], r);
      assert ids == ids[..|ids| - 1] + [ids[|ids| - 1]];
    }
  }
}
