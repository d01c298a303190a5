/** The ingest worker's claim gates as a transition system.

    A world is the queue table together with the worker's memory: the map of abort
    controllers (one per dispatched row) and the three dispatched sets. Steps are one
    claim phase, one stage write, one settled dispatch, one staff request, a crash, or one
    boot sweep; each database transaction is atomic, and claim phases do not overlap. */
module IngestGates {
  import opened Basics
  import opened PipelineStates

  type Id = nat

  datatype Config = Config(pipelineSerial: bool, amParallel: bool, stage6Serial: bool, concurrency: nat) {
    predicate Serial() { !amParallel && pipelineSerial }
    function ClaimOrder(): seq<State> { if Serial() then SERIAL_CLAIM_ORDER else READY_STATES }
  }

  datatype Row = Row(state: State, complete: bool, sip: string)

  /** A dispatched row: the state its stage was picked for, and the abort signal. */
  datatype Dispatch = Dispatch(entry: State, aborted: bool)

  datatype World = World(
    rows: map<Id, Row>,
    controllers: map<Id, Dispatch>,
    pipeline: set<Id>,
    am: set<Id>,
    stage6: set<Id>)
  {
    ghost predicate Valid() {
      && controllers.Keys <= rows.Keys
      && (forall id | id in controllers :: IsReady(controllers[id].entry))
      && (forall id :: id in pipeline <==> id in controllers && IsPipeline(controllers[id].entry))
      && (forall id :: id in am <==> id in controllers && IsAmActive(controllers[id].entry))
      && (forall id :: id in stage6 <==> id in controllers && IsStage6(controllers[id].entry))
    }

    predicate Open(id: Id) { id in rows && !rows[id].complete }

    function Put(id: Id, st: State, complete: bool): World
      requires id in rows
    {
      this.(rows := rows[id := rows[id].(state := st, complete := complete)])
    }

    /** The finally block of dispatch_one. */
    function Release(id: Id): World {
      World(rows, controllers - {id}, pipeline - {id}, am - {id}, stage6 - {id})
    }
  }

  const SCAN: nat := 50  // STAGE6_BACKOFF_SCAN

  // --- claiming: what one tick picks ------------------------------------------

  function MaxId(ids: set<Id>): (m: Id)
    requires ids != {}
    ensures m in ids && forall x | x in ids :: x <= m
  {
    MaxExists(ids);
    var m :| m in ids && forall x | x in ids :: x <= m;
    m
  }

  lemma MaxExists(ids: set<Id>)
    requires ids != {}
    ensures exists m :: m in ids && forall x | x in ids :: x <= m
  {
    var a :| a in ids;
    if ids != {a} {
      MaxExists(ids - {a});
      var m :| m in ids - {a} && forall x | x in ids - {a} :: x <= m;
      assert forall x | x in ids :: x == a || x in ids - {a};
      assert (if a <= m then m else a) in ids;
    }
  }

  /** The `limit` largest ids, largest first: ORDER BY id DESC LIMIT limit. */
  function Newest(ids: set<Id>, limit: nat): (r: seq<Id>)
    ensures |r| <= limit && |r| <= |ids|
    ensures |r| < limit ==> |r| == |ids|
    ensures forall id | id in r :: id in ids
    ensures forall i, j | 0 <= i < j < |r| :: r[j] < r[i]
    ensures forall id, k | id in ids && id !in r && k in r :: id < k
    ensures |r| < limit ==> forall id | id in ids :: id in r
  {
    if limit == 0 || ids == {} then []
    else
      var m := MaxId(ids);
      assert forall id | id in ids :: id == m || id in ids - {m};
      var rest := Newest(ids - {m}, limit - 1);
      assert forall i | 0 <= i < |rest| :: rest[i] in rest;
      [m] + rest
  }

  function Matching(rows: map<Id, Row>, st: State): set<Id> {
    set id | id in rows && rows[id].state == st && !rows[id].complete
  }

  function ListQueue(rows: map<Id, Row>, st: State, limit: nat): seq<Id> {
    Newest(Matching(rows, st), limit)
  }

  function CountIn(rows: map<Id, Row>, inside: State -> bool): nat {
    |set id | id in rows && inside(rows[id].state) && !rows[id].complete|
  }

  /** The sip_uuids in retry backoff; None when that lookup failed. */
  datatype Backoff = Known(sips: set<string>) | LookupFailed

  function Runnable(rows: map<Id, Row>, candidates: seq<Id>, backoff: Backoff): (r: seq<Id>)
    requires forall id | id in candidates :: id in rows
    ensures |r| <= |candidates|
    ensures forall id | id in r :: id in candidates
    ensures forall id | id in candidates && !(backoff.Known? && rows[id].sip in backoff.sips) :: id in r
    ensures forall id | id in r :: !(backoff.Known? && rows[id].sip in backoff.sips)
    ensures Distinct(candidates) ==> Distinct(r)
  {
    if candidates == [] then []
    else
      var rest := Runnable(rows, candidates[1..], backoff);
      assert forall i | 0 <= i < |candidates| - 1 :: candidates[1..][i] == candidates[i + 1];
      assert forall i | 0 <= i < |rest| :: rest[i] in rest;
      if backoff.Known? && rows[candidates[0]].sip in backoff.sips then rest else [candidates[0]] + rest
  }

  function Prefix<T>(s: seq<T>, n: nat): (r: seq<T>)
    ensures |r| <= n && |r| <= |s|
    ensures forall x | x in r :: x in s
  {
    if |s| <= n then s
    else
      assert forall i | 0 <= i < n :: s[..n][i] == s[i];
      s[..n]
  }

  /** The rows one claim query returns for state st. */
  function Candidates(rows: map<Id, Row>, backoff: Backoff, st: State, limit: nat): (r: seq<Id>)
    ensures |r| <= limit
    ensures forall id | id in r :: id in rows && rows[id].state == st && !rows[id].complete
    ensures Distinct(r)
  {
    if st.AipStorePending? then Prefix(Runnable(rows, ListQueue(rows, st, SCAN), backoff), limit)
    else ListQueue(rows, st, limit)
  }

  /** Has this tick already admitted a row whose state is in class p? */
  predicate Admitted(rows: map<Id, Row>, claimed: seq<Id>, p: State -> bool) {
    exists i | 0 <= i < |claimed| :: claimed[i] in rows && p(rows[claimed[i]].state)
  }

  predicate CopyGated(cfg: Config, w: World, st: State, claimed: seq<Id>) {
    && cfg.stage6Serial && IsStage6(st)
    && (|| w.stage6 != {}
        || Admitted(w.rows, claimed, IsStage6)
        || (st.AipStorePending? && CountIn(w.rows, IsCopying) > 0))
  }

  predicate SerialGated(w: World, st: State, claimed: seq<Id>) {
    || w.pipeline != {}
    || Admitted(w.rows, claimed, IsPipeline)
    || (st.Pending? && CountIn(w.rows, IsMid) > 0)
  }

  predicate AmGated(w: World, st: State, claimed: seq<Id>) {
    && IsAmActive(st)
    && (|| w.am != {}
        || Admitted(w.rows, claimed, IsAmActive)
        || (IsAmEntry(st) && CountIn(w.rows, IsAmInside) > 0))
  }

  /** The gate checks made before the query for st: true means `continue`. */
  predicate Gated(cfg: Config, w: World, st: State, claimed: seq<Id>) {
    || CopyGated(cfg, w, st, claimed)
    || (cfg.Serial() && IsPipeline(st) && SerialGated(w, st, claimed))
    || (!cfg.amParallel && !cfg.Serial() && AmGated(w, st, claimed))
  }

  /** States admitted at most one row per tick. */
  predicate OnePerTick(cfg: Config, st: State) {
    || (cfg.stage6Serial && IsStage6(st))
    || (cfg.Serial() && IsPipeline(st))
    || (!cfg.amParallel && IsAmActive(st))
  }

  function NotInFlight(w: World, ids: seq<Id>): (r: seq<Id>)
    ensures |r| <= |ids|
    ensures forall id | id in r :: id in ids && id !in w.controllers
    ensures forall id | id in ids && id !in w.controllers :: id in r
    ensures Distinct(ids) ==> Distinct(r)
  {
    if ids == [] then []
    else
      var rest := NotInFlight(w, ids[1..]);
      if ids[0] in w.controllers then rest else [ids[0]] + rest
  }

  /** The rows taken from one query's batch: those not in flight, or just the first of them. */
  function Pick(w: World, one: bool, batch: seq<Id>): (r: seq<Id>)
    ensures |r| <= |batch|
    ensures forall id | id in r :: id in batch && id !in w.controllers
    ensures one ==> |r| <= 1
    ensures Distinct(batch) ==> Distinct(r)
  {
    var free := NotInFlight(w, batch);
    if one then Prefix(free, 1) else free
  }

  /** What the tick adds to `claimed` when it considers state st. */
  function TakeFor(cfg: Config, w: World, backoff: Backoff, st: State, claimed: seq<Id>): (r: seq<Id>)
    ensures |claimed| <= cfg.concurrency ==> |claimed| + |r| <= cfg.concurrency
    ensures forall id | id in r :: w.Open(id) && w.rows[id].state == st && id !in w.controllers
    ensures r != [] ==> !Gated(cfg, w, st, claimed)
    ensures OnePerTick(cfg, st) ==> |r| <= 1
    ensures Distinct(r)
  {
    if |claimed| >= cfg.concurrency || Gated(cfg, w, st, claimed) then []
    else Pick(w, OnePerTick(cfg, st), Candidates(w.rows, backoff, st, cfg.concurrency - |claimed|))
  }

  function ClaimFrom(cfg: Config, w: World, backoff: Backoff, order: seq<State>, claimed: seq<Id>): seq<Id> {
    if order == [] then claimed
    else ClaimFrom(cfg, w, backoff, order[1..], claimed + TakeFor(cfg, w, backoff, order[0], claimed))
  }

  /** The rows a tick dispatches. */
  function Claim(cfg: Config, w: World, backoff: Backoff): seq<Id> {
    ClaimFrom(cfg, w, backoff, cfg.ClaimOrder(), [])
  }

  function DispatchOne(w: World, id: Id): World
    requires id in w.rows
  {
    var st := w.rows[id].state;
    World(w.rows,
          w.controllers[id := Dispatch(st, false)],
          if IsPipeline(st) then w.pipeline + {id} else w.pipeline,
          if IsAmActive(st) then w.am + {id} else w.am,
          if IsStage6(st) then w.stage6 + {id} else w.stage6)
  }

  function DispatchAll(w: World, ids: seq<Id>): (w': World)
    requires forall id | id in ids :: id in w.rows
    ensures w'.rows == w.rows
    decreases |ids|
  {
    if ids == [] then w else DispatchAll(DispatchOne(w, ids[0]), ids[1..])
  }

  // --- steps ------------------------------------------------------------------

  /** The states the stage dispatched from `entry` writes to its own row. Stages write
      unconditionally, so a staff cancel in between is overwritten. */
  predicate MayWrite(entry: State, to: State) {
    match entry
    case Pending | ProcessingMetadata =>
      to.ProcessingMetadata? || to.QaComplete? || to.AsMetadataInvalid? || to.IngestHalted?
    case QaComplete | Uploading =>
      to.Uploading? || to.UploadComplete? || to.UploadTimeout? || to.IngestHalted?
    case UploadComplete | TransferStarted | TransferInProgress =>
      || (to.TransferStarted? && entry.UploadComplete?)
      || ((to.TransferApproved? || to.TransferInProgress? || to.ApproveTimeout?) && !entry.TransferInProgress?)
      || to.TransferComplete? || to.TransferStatusTimeout? || to.Failed? || to.IngestHalted?
    case TransferComplete | IngestInProgress =>
      || (to.IngestInProgress? && entry.TransferComplete?)
      || to.IngestComplete? || to.IngestStatusTimeout? || to.Failed?
      || to.AsMetadataDrift? || to.WaitingForDuracloud? || to.MetadataProcessed?
      || to.DuracloudTimeout? || to.IngestHalted?
    case IngestComplete | WaitingForDuracloud =>
      || (to.AsMetadataDrift? && entry.IngestComplete?)
      || to.WaitingForDuracloud? || to.MetadataProcessed? || to.DuracloudTimeout? || to.IngestHalted?
    case MetadataProcessed | CreatingRepositoryRecord =>
      || to.CreatingRepositoryRecord? || to.Complete? || to.AipStorePending?
      || to.DuracloudTimeout? || to.IngestHalted?
    case AipStorePending | AipStoreInProgress =>
      || to.AipStorePending? || to.AipStoreInProgress? || to.AipStoreComplete?
      || to.AipStoreFailed? || to.Complete?
    case _ => false
  }

  datatype Label =
    | Tick(backoff: Backoff)
    | StageWrite(id: Id, to: State, complete: bool)
    | StageFinish(id: Id)                 // stage 5's { is_complete: 1 }
    | Settle(id: Id)
    | Halt(id: Id, written: bool)         // the stage threw; the halt write may fail too
    | CancelRow(id: Id)
    | Rollback(id: Id, to: State)
    | ResetRow(id: Id)
    | RetryAccessCopy(id: Id)
    | StopCopy(id: Id)
    | DismissCopy(id: Id)
    | RetryCopy(id: Id)
    | CancelBackfill(ids: set<Id>)
    | Enqueue(id: Id, row: Row)           // queue_packages, and backfill's insert
    | ResetOrphans(ids: set<Id>)          // boot, or the staff endpoint; one transaction a row
    | FinalizeCompletes
    | Crash

  predicate RollbackAllowed(from: State, to: State) {
    || (to.RolledBackToReady? && Offers(from, Action.RollbackPreIngest))
    || (to.AmDeletionRequested? && Offers(from, Action.RollbackArchivematica))
    || (to.ReturnedToPackaging? && Offers(from, Action.RollbackToPackaging))
  }

  predicate Enabled(w: World, l: Label) {
    match l
    case StageWrite(id, to, _) => id in w.controllers && id in w.rows && MayWrite(w.controllers[id].entry, to)
    case StageFinish(id) => id in w.controllers && id in w.rows
    case Settle(id) => id in w.controllers
    case Halt(id, _) => id in w.controllers && id in w.rows
    case CancelRow(id) => id in w.rows && IsCancellable(w.rows[id].state)
    case Rollback(id, to) => id in w.rows && RollbackAllowed(w.rows[id].state, to)
    case ResetRow(id) => id in w.rows && Offers(w.rows[id].state, Action.Reset)
    case RetryAccessCopy(id) => id in w.rows && Offers(w.rows[id].state, Action.RetryAccessCopy)
    case StopCopy(id) => id in w.rows && IsStage6(w.rows[id].state)
    case DismissCopy(id) => id in w.rows && w.rows[id].state.AipStoreFailed?
    case RetryCopy(id) => id in w.rows
    case CancelBackfill(ids) => ids <= w.rows.Keys && forall id | id in ids :: w.rows[id].state.AipStorePending?
    case Enqueue(id, _) => id !in w.rows
    case ResetOrphans(ids) => ids <= w.rows.Keys && forall id | id in ids :: w.Open(id) && IsActivelyRunning(w.rows[id].state)
    case _ => true
  }

  function PutAll(rows: map<Id, Row>, ids: set<Id>, st: State, close: bool): map<Id, Row> {
    map id | id in rows :: if id in ids then Row(st, close || rows[id].complete, rows[id].sip) else rows[id]
  }

  function Abort(w: World, id: Id): World {
    if id in w.controllers then w.(controllers := w.controllers[id := w.controllers[id].(aborted := true)]) else w
  }

  function Finalized(rows: map<Id, Row>): map<Id, Row> {
    PutAll(rows, (set id | id in rows && rows[id].state.Complete? && !rows[id].complete), Complete, true)
  }

  function Apply(cfg: Config, w: World, l: Label): World
    requires Enabled(w, l)
  {
    match l
    case Tick(backoff) =>
      var ids := Claim(cfg, w, backoff);
      ClaimedRowsOpen(cfg, w, backoff, cfg.ClaimOrder(), []);
      DispatchAll(w, ids)
    case StageWrite(id, to, complete) => w.Put(id, to, complete)
    case StageFinish(id) => w.Put(id, w.rows[id].state, true)
    case Settle(id) => w.Release(id)
    case Halt(id, written) =>
      (if written then w.Put(id, IngestHalted, w.rows[id].complete) else w).Release(id)
    case CancelRow(id) => Abort(w.Put(id, CancelledByUser, w.rows[id].complete), id)
    case Rollback(id, to) => w.Put(id, to, true)
    case ResetRow(id) => w.Put(id, Pending, w.rows[id].complete)
    case RetryAccessCopy(id) => w.Put(id, WaitingForDuracloud, w.rows[id].complete)
    case StopCopy(id) => Abort(w.Put(id, AipStoreFailed, false), id)
    case DismissCopy(id) => w.Put(id, AipStoreFailed, true)
    case RetryCopy(id) => w.Put(id, AipStorePending, false)
    case CancelBackfill(ids) => w.(rows := PutAll(w.rows, ids, CancelledByUser, true))
    case Enqueue(id, row) => w.(rows := w.rows[id := row])
    case ResetOrphans(ids) => w.(rows := PutAll(w.rows, ids, Pending, false))
    case FinalizeCompletes => w.(rows := Finalized(w.rows))
    case Crash => World(w.rows, map[], {}, {}, {})
  }

  lemma {:induction false} ClaimedRowsOpen(cfg: Config, w: World, backoff: Backoff, order: seq<State>, claimed: seq<Id>)
    requires forall id | id in claimed :: w.Open(id)
    ensures forall id | id in ClaimFrom(cfg, w, backoff, order, claimed) :: w.Open(id)
    decreases |order|
  {
    if order != [] {
      ClaimedRowsOpen(cfg, w, backoff, order[1..], claimed + TakeFor(cfg, w, backoff, order[0], claimed));
    }
  }

  // --- the steps, field by field ----------------------------------------------------------------

  /** What a step makes of a row that was there. */
  ghost predicate RowAfter(l: Label, id: Id, r: Row, r': Row) {
    match l
    case StageWrite(i, to, complete) => r' == if id == i then Row(to, complete, r.sip) else r
    case StageFinish(i) => r' == if id == i then Row(r.state, true, r.sip) else r
    case Halt(i, written) => r' == if id == i && written then Row(IngestHalted, r.complete, r.sip) else r
    case CancelRow(i) => r' == if id == i then Row(CancelledByUser, r.complete, r.sip) else r
    case Rollback(i, to) => r' == if id == i then Row(to, true, r.sip) else r
    case ResetRow(i) => r' == if id == i then Row(Pending, r.complete, r.sip) else r
    case RetryAccessCopy(i) => r' == if id == i then Row(WaitingForDuracloud, r.complete, r.sip) else r
    case StopCopy(i) => r' == if id == i then Row(AipStoreFailed, false, r.sip) else r
    case DismissCopy(i) => r' == if id == i then Row(AipStoreFailed, true, r.sip) else r
    case RetryCopy(i) => r' == if id == i then Row(AipStorePending, false, r.sip) else r
    case CancelBackfill(ids) => r' == if id in ids then Row(CancelledByUser, true, r.sip) else r
    case ResetOrphans(ids) => r' == if id in ids then Row(Pending, r.complete, r.sip) else r
    case FinalizeCompletes => r' == if r.state == Complete then Row(Complete, true, r.sip) else r
    case _ => r' == r
  }

  lemma StepOnRow(cfg: Config, w: World, l: Label, id: Id)
    requires Enabled(w, l) && id in w.rows && !l.Tick?
    ensures id in Apply(cfg, w, l).rows && RowAfter(l, id, w.rows[id], Apply(cfg, w, l).rows[id])
    ensures forall x | x in Apply(cfg, w, l).rows && x !in w.rows :: l.Enqueue? && l.id == x && Apply(cfg, w, l).rows[x] == l.row
    ensures l.Enqueue? ==> l.id in Apply(cfg, w, l).rows
  {
  }

  /** What a step other than a tick makes of the memory: a dispatch that settles or halts is forgotten
      everywhere, a cancelled or stopped one is signalled, and a crash forgets all. */
  lemma StepOnMemory(cfg: Config, w: World, l: Label, id: Id)
    requires Enabled(w, l) && !l.Tick?
    ensures var w' := Apply(cfg, w, l); var gone := l.Crash? || ((l.Settle? || l.Halt?) && l.id == id);
      && (id in w'.controllers <==> id in w.controllers && !gone)
      && (id in w'.pipeline <==> id in w.pipeline && !gone)
      && (id in w'.am <==> id in w.am && !gone)
      && (id in w'.stage6 <==> id in w.stage6 && !gone)
      && (id in w'.controllers ==>
            w'.controllers[id] == Dispatch(w.controllers[id].entry,
                                           w.controllers[id].aborted || ((l.CancelRow? || l.StopCopy?) && l.id == id)))
  {
  }

  // --- the order of a page ------------------------------------------------------------------------

  predicate Descending(ids: seq<Id>) {
    forall i, j | 0 <= i < j < |ids| :: ids[j] < ids[i]
  }

  /** The filters keep a page in its order, the newest row first. */
  lemma {:induction false} RunnableDescends(rows: map<Id, Row>, candidates: seq<Id>, backoff: Backoff)
    requires (forall id | id in candidates :: id in rows) && Descending(candidates)
    ensures Descending(Runnable(rows, candidates, backoff))
    decreases |candidates|
  {
    if candidates != [] {
      var rest := Runnable(rows, candidates[1..], backoff);
      RunnableDescends(rows, candidates[1..], backoff);
      forall i | 0 <= i < |rest| ensures rest[i] < candidates[0] {
        assert rest[i] in rest && rest[i] in candidates[1..];
      }
    }
  }

  lemma {:induction false} NotInFlightDescends(w: World, ids: seq<Id>)
    requires Descending(ids)
    ensures Descending(NotInFlight(w, ids))
    decreases |ids|
  {
    if ids != [] {
      var rest := NotInFlight(w, ids[1..]);
      NotInFlightDescends(w, ids[1..]);
      forall i | 0 <= i < |rest| ensures rest[i] < ids[0] {
        assert rest[i] in rest && rest[i] in ids[1..];
      }
    }
  }

  lemma PrefixIs<T>(s: seq<T>, n: nat)
    ensures Prefix(s, n) == s[..Min(n, |s|)]
  {
  }

  lemma CandidatesDescend(rows: map<Id, Row>, backoff: Backoff, st: State, limit: nat)
    ensures Descending(Candidates(rows, backoff, st, limit))
  {
    if st.AipStorePending? {
      RunnableDescends(rows, ListQueue(rows, st, SCAN), backoff);
      PrefixIs(Runnable(rows, ListQueue(rows, st, SCAN), backoff), limit);
    }
  }

  /** A claim takes the newest pending copies outside backoff among the newest SCAN: an open one that
      is passed over is older than all that are taken, in backoff, or not among those. */
  lemma CopyPassedOver(rows: map<Id, Row>, backoff: Backoff, limit: nat, id: Id)
    requires id in rows && rows[id].state.AipStorePending? && !rows[id].complete
    requires id !in Candidates(rows, backoff, AipStorePending, limit)
    ensures
      || id !in ListQueue(rows, AipStorePending, 50)
      || (backoff.Known? && rows[id].sip in backoff.sips)
      || (|Candidates(rows, backoff, AipStorePending, limit)| == limit
          && forall k | k in Candidates(rows, backoff, AipStorePending, limit) :: id < k)
  {
    var page := ListQueue(rows, AipStorePending, SCAN);
    var free := Runnable(rows, page, backoff);
    RunnableDescends(rows, page, backoff);
    PrefixIs(free, limit);
    var taken := free[..Min(limit, |free|)];
    forall i | 0 <= i < |taken| ensures free[i] in taken { assert taken[i] == free[i]; }
    if j :| 0 <= j < |free| && free[j] == id {
      forall k | k in taken ensures id < k {
        var i :| 0 <= i < |taken| && taken[i] == k;
        assert taken[i] == free[i];
      }
    }
  }
}
