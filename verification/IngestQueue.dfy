/** The ingest queue table and its append-only event log: every row's transition events
    replay to the row's current state. */
module IngestQueue {
  import opened Basics
  import opened PipelineStates

  type Id = nat

  datatype EventKind = StateChange | StaffAction | OrphanReset | Info

  /** payloadFrom is the `from` key of the event's payload; at is created_at. */
  datatype Event = Event(queueId: Id, from: Option<State>, to: State, kind: EventKind,
                         payloadFrom: Option<State>, at: nat)

  datatype QRow = QRow(batch: string, status: State, pipelineState: State, complete: bool)

  /** The columns a caller may set; the others carry no state. */
  datatype Update = Update(status: Option<State>, pipelineState: Option<State>, complete: Option<bool>) {
    /** enrich_update: pipeline_state mirrors status unless the caller sets it. */
    function State(): Option<PipelineStates.State> {
      if status.Some? && pipelineState.None? then status else pipelineState
    }
  }

  datatype Options = Options(kind: EventKind, payloadFrom: Option<State>)

  datatype Queue = Queue(rows: map<Id, QRow>, events: seq<Event>)

  function Or<T>(o: Option<T>, default: T): T {
    if o.Some? then o.value else default
  }

  // --- queue_packages and update_queue on values ---------------------------------------

  datatype NewRow = NewRow(batch: string, status: Option<State>, pipelineState: Option<State>, complete: bool)

  function Created(n: NewRow): QRow {
    var status := Or(n.status, Pending);
    QRow(n.batch, status, Or(n.pipelineState, status), n.complete)
  }

  function Inserted(q: Queue, id: Id, n: NewRow, at: nat): Queue {
    Queue(q.rows[id := Created(n)],
          q.events + [Event(id, None, Created(n).pipelineState, StateChange, None, at)])
  }

  function InsertedAll(q: Queue, first: Id, news: seq<NewRow>, at: nat): Queue
    decreases |news|
  {
    if news == [] then q else InsertedAll(Inserted(q, first, news[0], at), first + 1, news[1..], at)
  }

  function Set(r: QRow, u: Update): QRow {
    QRow(r.batch, Or(u.status, r.status), Or(u.State(), r.pipelineState), Or(u.complete, r.complete))
  }

  /** The events one update appends: one for each matched row whose state changes. */
  function TransitionEvents(rows: map<Id, QRow>, before: seq<Id>, u: Update, o: Options, at: nat): seq<Event>
    requires forall id | id in before :: id in rows
  {
    if before == [] || u.State().None? then []
    else
      var from := rows[before[0]].pipelineState;
      (if from == u.State().value then []
       else [Event(before[0], Some(from), u.State().value, o.kind, o.payloadFrom, at)])
      + TransitionEvents(rows, before[1..], u, o, at)
  }

  /** update_queue: `before` is what the SELECT inside the transaction returned. */
  function Updated(q: Queue, before: seq<Id>, u: Update, o: Options, at: nat): Queue
    requires forall id | id in before :: id in q.rows
  {
    Queue(map id | id in q.rows :: if id in before then Set(q.rows[id], u) else q.rows[id],
          q.events + TransitionEvents(q.rows, before, u, o, at))
  }

  // --- replaying the log ---------------------------------------------------------------

  datatype Replay = Unborn | At(state: State) | Broken

  /** An event with no from_state creates the row or is a timeline label; any other event is a
      transition, and must leave the state it says it leaves for a different one. */
  function ReplayStep(r: Replay, e: Event): Replay {
    match r
    case Unborn => if e.from.None? then At(e.to) else Broken
    case At(s) => if e.from.None? then r else if e.from.value == s && e.to != s then At(e.to) else Broken
    case Broken => Broken
  }

  function ReplayOf(events: seq<Event>, id: Id): Replay {
    if events == [] then Unborn
    else
      var r := ReplayOf(events[..|events| - 1], id);
      var e := events[|events| - 1];
      if e.queueId == id then ReplayStep(r, e) else r
  }

  function ReplayFrom(r: Replay, events: seq<Event>, id: Id): Replay
    decreases |events|
  {
    if events == [] then r
    else ReplayFrom(if events[0].queueId == id then ReplayStep(r, events[0]) else r, events[1..], id)
  }

  lemma {:induction false} ReplayAppend(a: seq<Event>, b: seq<Event>, id: Id)
    ensures ReplayOf(a + b, id) == ReplayFrom(ReplayOf(a, id), b, id)
    decreases |b|
  {
    if b == [] {
      assert a + b == a;
    } else {
      assert a + b == (a + [b[0]]) + b[1..];
      ReplayAppend(a + [b[0]], b[1..], id);
      assert (a + [b[0]])[..|a|] == a;
    }
  }

  /** Row by row: the two state columns agree, and the log replays to them. */
  ghost predicate RowSynced(q: Queue, id: Id) {
    if id in q.rows then q.rows[id].status == q.rows[id].pipelineState
                         && ReplayOf(q.events, id) == At(q.rows[id].pipelineState)
    else ReplayOf(q.events, id) == Unborn
  }

  ghost predicate Synced(q: Queue) {
    forall id: Id :: RowSynced(q, id)
  }

  // --- the transitions as an explicit chain ---------------------------------------------

  /** The transition events of one row: its creation, then every event with a from_state. */
  function Trail(events: seq<Event>, id: Id): seq<Event> {
    if events == [] then []
    else
      var t := Trail(events[..|events| - 1], id);
      var e := events[|events| - 1];
      if e.queueId == id && (t == [] || e.from.Some?) then t + [e] else t
  }

  ghost predicate UnbrokenTo(t: seq<Event>, s: State) {
    && t != [] && t[0].from.None? && t[|t| - 1].to == s
    && (forall i | 0 < i < |t| :: t[i].from == Some(t[i - 1].to) && t[i].to != t[i - 1].to)
  }

  lemma ChainSnoc(t: seq<Event>, e: Event, s: State)
    requires t != [] && e.from.Some?
    ensures UnbrokenTo(t + [e], s) <==> UnbrokenTo(t, e.from.value) && e.to == s && e.to != e.from.value
  {
    var t' := t + [e];
    assert forall i | 0 <= i < |t| :: t'[i] == t[i];
    if UnbrokenTo(t', s) {
      assert t'[|t|].from == Some(t'[|t| - 1].to);
    }
  }

  /** A log that replays to s is an unbroken chain from nothing to s, with no self-loops; and
      the other way round. */
  lemma {:induction false} ReplayIsChain(events: seq<Event>, id: Id, s: State)
    ensures ReplayOf(events, id) == At(s) <==> UnbrokenTo(Trail(events, id), s)
    ensures ReplayOf(events, id) == Unborn <==> Trail(events, id) == []
    decreases |events|
  {
    if events != [] {
      var init, e := events[..|events| - 1], events[|events| - 1];
      ReplayIsChain(init, id, s);
      if Trail(init, id) != [] && e.queueId == id && e.from.Some? {
        ReplayIsChain(init, id, e.from.value);
        ChainSnoc(Trail(init, id), e, s);
      }
    }
  }

  // --- every way the table and the log change ---------------------------------------------

  datatype Op =
    | QueuePackages(first: Id, news: seq<NewRow>)
    | UpdateQueue(before: seq<Id>, u: Update, o: Options)
    | InsertEvent(id: Id, from: Option<State>, to: State, kind: EventKind)
    | FinalizePendingCompletes
    | BackfillInsert(id: Id, batch: string)      // aip_backfill writes the table directly
    | BackfillCancel(ids: set<Id>)

  predicate Enabled(q: Queue, op: Op) {
    match op
    case QueuePackages(first, news) => forall id: Id | first <= id < first + |news| :: id !in q.rows
    case UpdateQueue(before, _, _) => Distinct(before) && forall id | id in before :: id in q.rows
    case InsertEvent(id, _, _, _) => id in q.rows
    case FinalizePendingCompletes => true
    case BackfillInsert(id, _) => id !in q.rows
    case BackfillCancel(ids) => ids <= q.rows.Keys && forall id | id in ids :: q.rows[id].pipelineState.AipStorePending?
  }

  function Finalized(q: Queue): Queue {
    q.(rows := map id | id in q.rows ::
         if q.rows[id].pipelineState.Complete? then q.rows[id].(complete := true) else q.rows[id])
  }

  function Perform(q: Queue, op: Op, at: nat): Queue
    requires Enabled(q, op)
  {
    match op
    case QueuePackages(first, news) => InsertedAll(q, first, news, at)
    case UpdateQueue(before, u, o) => Updated(q, before, u, o, at)
    case InsertEvent(id, from, to, kind) => q.(events := q.events + [Event(id, from, to, kind, None, at)])
    case FinalizePendingCompletes => Finalized(q)
    case BackfillInsert(id, batch) => q.(rows := q.rows[id := QRow(batch, AipStorePending, AipStorePending, false)])
    case BackfillCancel(ids) =>
      q.(rows := map id | id in q.rows ::
           if id in ids then q.rows[id].(status := CancelledByUser, pipelineState := CancelledByUser, complete := true)
           else q.rows[id])
  }

  /** The caller's side of keeping the log and the columns in step. */
  predicate Keeps(q: Queue, op: Op)
    requires Enabled(q, op)
  {
    match op
    case QueuePackages(_, news) =>
      forall n | n in news :: n.pipelineState.None? || n.pipelineState.value == Or(n.status, Pending)
    case UpdateQueue(before, u, _) =>
      || before == [] || u.pipelineState.None?
      || (if u.status.Some? then u.status == u.pipelineState
          else forall id | id in before :: q.rows[id].status == u.pipelineState.value)
    case InsertEvent(_, from, _, _) => from.None?
    case FinalizePendingCompletes => true
    case BackfillInsert(_, _) => false
    case BackfillCancel(ids) => ids == {}
  }

  lemma {:induction false} ReplayTransitions(rows: map<Id, QRow>, before: seq<Id>, u: Update, o: Options, at: nat, id: Id, s: State)
    requires Distinct(before) && forall x | x in before :: x in rows
    requires id in before ==> rows[id].pipelineState == s
    ensures ReplayFrom(At(s), TransitionEvents(rows, before, u, o, at), id) ==
            At(if id in before && u.State().Some? then u.State().value else s)
    decreases |before|
  {
    if before != [] && u.State().Some? {
      var rest := TransitionEvents(rows, before[1..], u, o, at);
      assert forall x | x in before[1..] :: x in before;
      if before[0] == id {
        assert id !in before[1..];
        ReplayTransitions(rows, before[1..], u, o, at, id, u.State().value);
      } else {
        ReplayTransitions(rows, before[1..], u, o, at, id, s);
      }
      var from := rows[before[0]].pipelineState;
      if from != u.State().value {
        var e := Event(before[0], Some(from), u.State().value, o.kind, o.payloadFrom, at);
        assert ([e] + rest)[0] == e && ([e] + rest)[1..] == rest;
      } else {
        assert [] + rest == rest;
      }
    }
  }

  lemma {:induction false} ReplayOthers(rows: map<Id, QRow>, before: seq<Id>, u: Update, o: Options, at: nat, id: Id, r: Replay)
    requires forall x | x in before :: x in rows
    requires id !in before
    ensures ReplayFrom(r, TransitionEvents(rows, before, u, o, at), id) == r
    decreases |before|
  {
    if before != [] && u.State().Some? {
      var rest := TransitionEvents(rows, before[1..], u, o, at);
      ReplayOthers(rows, before[1..], u, o, at, id, r);
      var from := rows[before[0]].pipelineState;
      if from != u.State().value {
        var e := Event(before[0], Some(from), u.State().value, o.kind, o.payloadFrom, at);
        assert ([e] + rest)[0] == e && ([e] + rest)[1..] == rest;
      } else {
        assert [] + rest == rest;
      }
    }
  }

  /** update_queue keeps every row's log in step with its state, whatever the columns: what can
      drift is only the status column. */
  lemma UpdateReplays(q: Queue, before: seq<Id>, u: Update, o: Options, at: nat, id: Id)
    requires Distinct(before) && (forall x | x in before :: x in q.rows) && Synced(q)
    ensures var q' := Updated(q, before, u, o, at);
      && (id in q'.rows <==> id in q.rows)
      && ReplayOf(q'.events, id) == (if id in q.rows then At(q'.rows[id].pipelineState) else Unborn)
  {
    assert RowSynced(q, id);
    ReplayAppend(q.events, TransitionEvents(q.rows, before, u, o, at), id);
    if id in q.rows {
      ReplayTransitions(q.rows, before, u, o, at, id, q.rows[id].pipelineState);
      if id !in before { ReplayOthers(q.rows, before, u, o, at, id, At(q.rows[id].pipelineState)); }
    } else {
      ReplayOthers(q.rows, before, u, o, at, id, Unborn);
    }
  }

  lemma UpdateSyncedIff(q: Queue, before: seq<Id>, u: Update, o: Options, at: nat)
    requires Enabled(q, UpdateQueue(before, u, o)) && Synced(q)
    ensures Synced(Updated(q, before, u, o, at)) <==> Keeps(q, UpdateQueue(before, u, o))
  {
    var q' := Updated(q, before, u, o, at);
    forall id: Id
      ensures RowSynced(q', id) <==> (id in q.rows ==> q'.rows[id].status == q'.rows[id].pipelineState)
    {
      UpdateReplays(q, before, u, o, at, id);
    }
    assert forall id | id in q.rows :: RowSynced(q, id);
    if Keeps(q, UpdateQueue(before, u, o)) {
      assert forall id | id in q'.rows :: q'.rows[id].status == q'.rows[id].pipelineState;
    } else if u.status.Some? {
      assert before[0] in before && q'.rows[before[0]].status != q'.rows[before[0]].pipelineState;
      assert !RowSynced(q', before[0]);
    } else {
      var id :| id in before && q.rows[id].status != u.pipelineState.value;
      assert !RowSynced(q', id);
    }
  }

  lemma InsertSynced(q: Queue, first: Id, n: NewRow, at: nat)
    requires Synced(q) && first !in q.rows
    ensures Synced(Inserted(q, first, n, at)) <==> Created(n).status == Created(n).pipelineState
    ensures forall id: Id | id != first :: RowSynced(Inserted(q, first, n, at), id)
  {
    var q' := Inserted(q, first, n, at);
    assert RowSynced(q, first);
    assert q'.events[..|q.events|] == q.events;
    forall id: Id ensures RowSynced(q', id) <==> (id == first ==> Created(n).status == Created(n).pipelineState) {
      assert RowSynced(q, id);
    }
    assert RowSynced(q', first) <==> Created(n).status == Created(n).pipelineState;
  }

  lemma {:induction false} InsertedAllKeepsRow(q: Queue, first: Id, news: seq<NewRow>, at: nat, id: Id)
    requires id in q.rows && id < first
    ensures id in InsertedAll(q, first, news, at).rows && InsertedAll(q, first, news, at).rows[id] == q.rows[id]
    decreases |news|
  {
    if news != [] {
      InsertedAllKeepsRow(Inserted(q, first, news[0], at), first + 1, news[1..], at, id);
    }
  }

  lemma {:induction false} InsertedAllSyncedIff(q: Queue, first: Id, news: seq<NewRow>, at: nat)
    requires Synced(q) && forall id: Id | first <= id < first + |news| :: id !in q.rows
    ensures Synced(InsertedAll(q, first, news, at)) <==>
            forall n | n in news :: Created(n).status == Created(n).pipelineState
    decreases |news|
  {
    if news != [] {
      var q1 := Inserted(q, first, news[0], at);
      InsertSynced(q, first, news[0], at);
      assert forall n :: n in news <==> n == news[0] || n in news[1..];
      if Synced(q1) {
        InsertedAllSyncedIff(q1, first + 1, news[1..], at);
      } else {
        InsertedAllKeepsRow(q1, first + 1, news[1..], at, first);
        assert !RowSynced(InsertedAll(q, first, news, at), first);
      }
    }
  }

  /** LOG REPLAY, one operation: the table and the log stay in step exactly when the caller
      keeps its side: no pipeline_state that differs from status, no inserted event posing as a
      transition, no write around the model. */
  lemma PerformSyncedIff(q: Queue, op: Op, at: nat)
    requires Synced(q) && Enabled(q, op)
    ensures Synced(Perform(q, op, at)) <==> Keeps(q, op)
  {
    var q' := Perform(q, op, at);
    match op
    case QueuePackages(first, news) => InsertedAllSyncedIff(q, first, news, at);
    case UpdateQueue(before, u, o) => UpdateSyncedIff(q, before, u, o, at);
    case InsertEvent(id, from, to, kind) =>
      assert q'.events[..|q.events|] == q.events;
      forall x: Id ensures RowSynced(q', x) <==> (x == id ==> from.None?) {
        assert RowSynced(q, x);
      }
      assert RowSynced(q', id) <==> from.None?;
    case FinalizePendingCompletes =>
      assert forall x: Id :: RowSynced(q', x) <==> RowSynced(q, x);
    case BackfillInsert(id, _) =>
      assert RowSynced(q, id);
      assert !RowSynced(q', id);
    case BackfillCancel(ids) =>
      if ids == {} {
        assert q'.rows == q.rows;
      } else {
        var id :| id in ids;
        assert RowSynced(q, id);
        assert !RowSynced(q', id);
      }
  }

  // --- the operations, field by field ----------------------------------------------------

  /** What an operation makes of a row that was there. */
  lemma OpOnRow(q: Queue, op: Op, at: nat, id: Id)
    requires Enabled(q, op) && id in q.rows && !op.QueuePackages?
    ensures id in Perform(q, op, at).rows
    ensures var r, r' := q.rows[id], Perform(q, op, at).rows[id];
      match op
      case UpdateQueue(before, u, _) =>
        r' == if id !in before then r
              else QRow(r.batch, if u.status.Some? then u.status.value else r.status,
                        if u.pipelineState.Some? then u.pipelineState.value
                        else if u.status.Some? then u.status.value else r.pipelineState,
                        if u.complete.Some? then u.complete.value else r.complete)
      case FinalizePendingCompletes => r' == QRow(r.batch, r.status, r.pipelineState, r.complete || r.pipelineState == Complete)
      case BackfillCancel(ids) => r' == if id in ids then QRow(r.batch, CancelledByUser, CancelledByUser, true) else r
      case _ => r' == r
  {
  }

  /** The writes around the model: a row appears, open and waiting for its copy, and no operation of
      theirs leaves a trace in the log. */
  lemma OpOnLog(q: Queue, op: Op, at: nat)
    requires Enabled(q, op)
    ensures op.BackfillInsert? ==>
      Perform(q, op, at).rows == q.rows[op.id := QRow(op.batch, AipStorePending, AipStorePending, false)]
    ensures op.FinalizePendingCompletes? || op.BackfillInsert? || op.BackfillCancel? ==> Perform(q, op, at).events == q.events
    ensures op.InsertEvent? ==> Perform(q, op, at).events == q.events + [Event(op.id, op.from, op.to, op.kind, None, at)]
  {
  }

  /** Every event of an update is a change of one matched row, as the caller described it. */
  lemma {:induction false} TransitionsAre(rows: map<Id, QRow>, before: seq<Id>, u: Update, o: Options, at: nat)
    requires forall id | id in before :: id in rows
    ensures forall e | e in TransitionEvents(rows, before, u, o, at) ::
      && e.queueId in before && e.from == Some(rows[e.queueId].pipelineState) && Some(e.to) == u.State() && e.from != Some(e.to)
      && e.kind == o.kind && e.payloadFrom == o.payloadFrom && e.at == at
    decreases |before|
  {
    if before != [] && u.State().Some? { TransitionsAre(rows, before[1..], u, o, at); }
  }

  /** The rows of one queue_packages call: Pending unless the caller says otherwise, the two state
      columns alike unless the caller gives both, each with its creation event. */
  lemma {:induction false} InsertedAllAre(q: Queue, first: Id, news: seq<NewRow>, at: nat, i: nat)
    requires i < |news|
    ensures var q', n := InsertedAll(q, first, news, at), news[i];
      var status := if n.status.Some? then n.status.value else Pending;
      var state := if n.pipelineState.Some? then n.pipelineState.value else status;
      && first + i in q'.rows && q'.rows[first + i] == QRow(n.batch, status, state, n.complete)
      && |q'.events| == |q.events| + |news| && q'.events[..|q.events|] == q.events
      && q'.events[|q.events| + i] == Event(first + i, None, state, StateChange, None, at)
    decreases |news|
  {
    var q1 := Inserted(q, first, news[0], at);
    if |news| > 1 {
      InsertedAllAre(q1, first + 1, news[1..], at, if i > 0 then i - 1 else 0);
    }
    if i == 0 { InsertedAllKeepsRow(q1, first + 1, news[1..], at, first); }
  }

  // --- runs -----------------------------------------------------------------------------

  ghost predicate IsRun(queues: seq<Queue>, ops: seq<Op>, clock: seq<nat>) {
    && |queues| == |ops| + 1 && |clock| == |ops|
    && queues[0] == Queue(map[], [])
    && forall k | 0 <= k < |ops| :: Enabled(queues[k], ops[k]) && queues[k + 1] == Perform(queues[k], ops[k], clock[k])
  }

  /** LOG REPLAY over runs: at every point the transition events of every row form an unbroken
      chain from nothing to its pipeline_state, and status equals pipeline_state. */
  lemma {:induction false} LogReplays(queues: seq<Queue>, ops: seq<Op>, clock: seq<nat>, k: nat)
    requires IsRun(queues, ops, clock) && k < |queues|
    requires forall i | 0 <= i < |ops| :: Keeps(queues[i], ops[i])
    ensures Synced(queues[k])
    ensures forall id | id in queues[k].rows ::
      && queues[k].rows[id].status == queues[k].rows[id].pipelineState
      && UnbrokenTo(Trail(queues[k].events, id), queues[k].rows[id].pipelineState)
  {
    if k > 0 {
      LogReplays(queues, ops, clock, k - 1);
      PerformSyncedIff(queues[k - 1], ops[k - 1], clock[k - 1]);
    }
    forall id | id in queues[k].rows
      ensures queues[k].rows[id].status == queues[k].rows[id].pipelineState
      ensures UnbrokenTo(Trail(queues[k].events, id), queues[k].rows[id].pipelineState)
    {
      assert RowSynced(queues[k], id);
      ReplayIsChain(queues[k].events, id, queues[k].rows[id].pipelineState);
    }
  }

  // --- the model object --------------------------------------------------------------------

  lemma {:induction false} TransitionsSnoc(rows: map<Id, QRow>, before: seq<Id>, id: Id, u: Update, o: Options, at: nat)
    requires id in rows && forall x | x in before :: x in rows
    ensures TransitionEvents(rows, before + [id], u, o, at) ==
            TransitionEvents(rows, before, u, o, at) + TransitionEvents(rows, [id], u, o, at)
    decreases |before|
  {
    if before == [] {
      assert before + [id] == [id];
    } else {
      assert (before + [id])[1..] == before[1..] + [id];
      TransitionsSnoc(rows, before[1..], id, u, o, at);
    }
  }

  lemma {:induction false} InsertedAllSnoc(q: Queue, first: Id, news: seq<NewRow>, n: NewRow, at: nat)
    ensures InsertedAll(q, first, news + [n], at) == Inserted(InsertedAll(q, first, news, at), first + |news|, n, at)
    decreases |news|
  {
    if news == [] {
      assert InsertedAll(Inserted(q, first, n, at), first + 1, [], at) == Inserted(q, first, n, at);
    } else {
      assert (news + [n])[1..] == news[1..] + [n];
      InsertedAllSnoc(Inserted(q, first, news[0], at), first + 1, news[1..], n, at);
    }
  }

  class QueueModel {
    var rows: map<Id, QRow>
    var events: seq<Event>

    function Q(): Queue
      reads this
    {
      Queue(rows, events)
    }

    constructor ()
      ensures Q() == Queue(map[], [])
    {
      rows, events := map[], [];
    }

    /** Refuses an empty list; otherwise inserts every row with its creation event. */
    method QueuePackages(first: Id, news: seq<NewRow>, at: nat) returns (ids: Option<seq<Id>>)
      modifies this
      ensures ids.None? <==> news == []
      ensures ids.None? ==> Q() == old(Q())
      ensures ids.Some? ==> Q() == InsertedAll(old(Q()), first, news, at)
      ensures ids.Some? ==> |ids.value| == |news| && forall i | 0 <= i < |news| :: ids.value[i] == first + i
    {
      if news == [] { return None; }
      var out: seq<Id> := [];
      var i := 0;
      while i < |news|
        invariant 0 <= i <= |news| && |out| == i
        invariant Q() == InsertedAll(old(Q()), first, news[..i], at)
        invariant forall j | 0 <= j < i :: out[j] == first + j
      {
        InsertedAllSnoc(old(Q()), first, news[..i], news[i], at);
        assert news[..i + 1] == news[..i] + [news[i]];
        var r := Created(news[i]);
        rows := rows[first + i := r];
        out := out + [first + i];
        events := events + [Event(first + i, None, r.pipelineState, StateChange, None, at)];
        i := i + 1;
      }
      assert news[..i] == news;
      return Some(out);
    }

    /** The rows matched by the where clause are `before`, in the order the SELECT gave. */
    method UpdateQueue(before: seq<Id>, u: Update, o: Options, at: nat) returns (affected: nat)
      requires Distinct(before) && forall id | id in before :: id in rows
      modifies this
      ensures affected == |before| && Q() == Updated(old(Q()), before, u, o, at)
    {
      affected := |before|;
      if affected == 0 {
        assert Q().rows == Updated(old(Q()), before, u, o, at).rows;
        return;
      }
      var was := rows;
      rows := map id | id in rows :: if id in before then Set(rows[id], u) else rows[id];
      var to := u.State();
      if to.Some? {
        var i := 0;
        while i < |before|
          invariant 0 <= i <= |before| && rows == Updated(old(Q()), before, u, o, at).rows
          invariant forall x | x in before[..i] :: x in was
          invariant events == old(events) + TransitionEvents(was, before[..i], u, o, at)
        {
          var id := before[i];
          assert id in before && before[..i + 1] == before[..i] + [id];
          TransitionsSnoc(was, before[..i], id, u, o, at);
          i := i + 1;
          if was[id].pipelineState == to.value { continue; }
          events := events + [Event(id, Some(was[id].pipelineState), to.value, o.kind, o.payloadFrom, at)];
        }
        assert before[..i] == before;
      }
    }

    /** reset_orphaned: one update per candidate, so the log records each reset. */
    method ResetOrphaned(candidates: seq<Id>, at: nat) returns (affected: nat)
      requires Synced(Q()) && Distinct(candidates)
      requires forall id :: id in candidates <==> id in rows && !rows[id].complete && IsActivelyRunning(rows[id].pipelineState)
      modifies this
      ensures affected == |candidates| && Synced(Q())
      ensures rows == map id | id in old(rows) ::
        if id in candidates then old(rows)[id].(status := Pending, pipelineState := Pending) else old(rows)[id]
    {
      affected := 0;
      ghost var was := rows;
      var i := 0;
      while i < |candidates|
        invariant 0 <= i <= |candidates| && affected == i && Synced(Q())
        invariant rows == map id | id in was ::
          if id in candidates[..i] then was[id].(status := Pending, pipelineState := Pending) else was[id]
      {
        var id := candidates[i];
        assert id in candidates && candidates[..i + 1] == candidates[..i] + [id];
        assert id !in candidates[..i];
        var u := Update(Some(Pending), None, None);
        var o := Options(EventKind.OrphanReset, Some(rows[id].pipelineState));
        UpdateSyncedIff(Q(), [id], u, o, at);
        var n := UpdateQueue([id], u, o, at);
        affected := affected + n;
        i := i + 1;
      }
      assert candidates[..i] == candidates;
    }
  }
}
