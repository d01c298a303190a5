/** The AIP backfill: Start enqueues Stage 6 rows for the objects whose package is not in the
    store yet, in bounded chunks, and may be clicked again while earlier rows still drain. */
module AipBackfill {
  import opened Basics
  import opened PipelineStates
  import IngestGates

  /** sip_uuid: null or empty, the literal PENDING, or a package id. */
  datatype Sip = NoSip | Placeholder | Real(id: nat)

  /** decided: the store holds a success or an orphan code for the object's pid. */
  datatype Obj = Obj(isObject: bool, active: bool, sip: Sip, decided: bool)

  datatype QRow = QRow(batch: Option<nat>, sip: Sip, state: State, complete: bool)

  /** _resolve_chunk_size: override, else the configured size, else 1000, clamped. */
  function ChunkSize(override: Option<int>, configured: Option<int>): (n: nat)
    ensures 1 <= n <= 10000
  {
    var raw := if override.Some? && override.value != 0 then override.value
               else if configured.Some? && configured.value != 0 then configured.value else 1000;
    Max(1, Min(10000, raw))
  }

  /** n is x, taken to the nearest end of 1..10000 if it lies outside. */
  predicate Clamped(n: nat, x: int) {
    if x < 1 then n == 1 else if x > 10000 then n == 10000 else n == x
  }

  /** A zero counts as nothing given; a negative size becomes one row, a huge one ten thousand. */
  lemma ChunkSizeIs(override: Option<int>, configured: Option<int>)
    ensures override.Some? && override.value != 0 ==> Clamped(ChunkSize(override, configured), override.value)
    ensures (override.None? || override == Some(0)) && configured.Some? && configured.value != 0 ==>
      Clamped(ChunkSize(override, configured), configured.value)
    ensures (override.None? || override == Some(0)) && (configured.None? || configured == Some(0)) ==>
      ChunkSize(override, configured) == 1000
  {
  }

  predicate Live(r: QRow) {
    IsStage6(r.state) && !r.complete
  }

  predicate LiveSip(rows: seq<QRow>, s: Sip) {
    exists i :: 0 <= i < |rows| && Live(rows[i]) && rows[i].sip == s
  }

  /** _apply_eligible_filter together with _apply_live_exclusion. */
  predicate Missing(o: Obj, rows: seq<QRow>) {
    o.isObject && o.active && o.sip.Real? && !o.decided && !LiveSip(rows, o.sip)
  }

  /** count_missing_aips. */
  function MissingCount(objs: seq<Obj>, rows: seq<QRow>): nat {
    if objs == [] then 0
    else MissingCount(objs[..|objs| - 1], rows) + if Missing(objs[|objs| - 1], rows) then 1 else 0
  }

  predicate Ascending(ids: seq<nat>) {
    forall i, j | 0 <= i < j < |ids| :: ids[i] < ids[j]
  }

  predicate Chosen(objs: seq<Obj>, rows: seq<QRow>, ids: seq<nat>) {
    forall i | 0 <= i < |ids| :: ids[i] < |objs| && Missing(objs[ids[i]], rows)
  }

  /** The candidates of one Start: the first `limit` missing objects, by id. */
  function Candidates(objs: seq<Obj>, rows: seq<QRow>, limit: nat): (ids: seq<nat>)
    ensures Chosen(objs, rows, ids)
  {
    if objs == [] then []
    else
      var n := |objs| - 1;
      var ids := Candidates(objs[..n], rows, limit);
      assert Chosen(objs, rows, ids) by { assert forall k | 0 <= k < n :: objs[..n][k] == objs[k]; }
      if Missing(objs[n], rows) && |ids| < limit then ids + [n] else ids
  }

  lemma {:induction false} CandidatesCount(objs: seq<Obj>, rows: seq<QRow>, limit: nat)
    ensures Ascending(Candidates(objs, rows, limit))
    ensures |Candidates(objs, rows, limit)| == Min(limit, MissingCount(objs, rows))
  {
    if objs != [] {
      CandidatesCount(objs[..|objs| - 1], rows, limit);
      assert Chosen(objs[..|objs| - 1], rows, Candidates(objs[..|objs| - 1], rows, limit));
    }
  }

  /** Start passes over no missing object for a later one. */
  lemma {:induction false} NonePassedOver(objs: seq<Obj>, rows: seq<QRow>, limit: nat, k: nat)
    requires k < |objs| && Missing(objs[k], rows) && k !in Candidates(objs, rows, limit)
    ensures var ids := Candidates(objs, rows, limit); |ids| >= limit && forall i | 0 <= i < |ids| :: ids[i] < k
    decreases |objs|
  {
    var n := |objs| - 1;
    var ids := Candidates(objs[..n], rows, limit);
    if k < n {
      NonePassedOver(objs[..n], rows, limit, k);
    } else {
      assert Chosen(objs[..n], rows, ids);
    }
  }

  function Enqueued(objs: seq<Obj>, ids: seq<nat>, batch: nat): (rows: seq<QRow>)
    requires forall i | 0 <= i < |ids| :: ids[i] < |objs|
    ensures |rows| == |ids|
    ensures forall i | 0 <= i < |ids| :: rows[i] == QRow(Some(batch), objs[ids[i]].sip, AipStorePending, false)
  {
    seq(|ids|, i requires 0 <= i < |ids| => QRow(Some(batch), objs[ids[i]].sip, AipStorePending, false))
  }

  // --- steps --------------------------------------------------------------------------------------

  /** The rows of the queue by id, and those of them with a stage 6 dispatch under way in the worker. */
  datatype World = World(objs: seq<Obj>, rows: seq<QRow>, nextBatch: nat, dispatched: set<nat>)

  datatype Step =
    | Start(limit: nat)
    | CancelBatch(batch: nat)
    | Dispatch(i: nat)                                           // the worker takes a live row
    | StageWrite(i: nat, state: State, complete: Option<bool>)   // its stage writes the row, whatever the row holds by now
    | Settle(i: nat)                                             // the stage is over
    | Park(i: nat, close: bool)                                  // staff stop or dismiss a copy
    | Reopen(sip: Sip)                                           // staff retry a package: its newest row
    | Insert(row: QRow)                                          // a package is queued
    | Elsewhere(i: nat, row: QRow)                               // any other write: stages 1 to 5, staff, boot
    | Catalogue(objs: seq<Obj>)                                  // objects come, go and change, copies are recorded
    | Crash

  /** The writes of stage 6: the start leaves is_complete alone, a failure reopens the row for a
      retry or parks it, an end closes it, and a halt leaves is_complete alone. */
  predicate StageMayWrite(state: State, complete: Option<bool>) {
    || (complete.None? && (state.AipStoreInProgress? || state.IngestHalted?))
    || (complete == Some(false) && (state.AipStorePending? || state.AipStoreFailed?))
    || (complete == Some(true) && (state.AipStoreComplete? || state.AipStoreFailed? || state.Complete?))
  }

  /** The states are those that the ingest worker's stage 6 writes, and a write that closes the row
      leaves no state that the worker would take up. */
  lemma StageWritesAgree(state: State)
    ensures StageMayWrite(state, None) || StageMayWrite(state, Some(false)) || StageMayWrite(state, Some(true)) <==>
            IngestGates.MayWrite(AipStorePending, state) || state.IngestHalted?
    ensures StageMayWrite(state, Some(true)) ==> !IsReady(state)
    ensures state.AipStoreFailed? ==> StageMayWrite(state, Some(false)) && StageMayWrite(state, Some(true))
    ensures StageMayWrite(state, None) && StageMayWrite(state, Some(false)) ==> false
  {
  }

  /** The newest row with this sip_uuid (|rows| if there is none). */
  function Newest(rows: seq<QRow>, s: Sip): (i: nat)
    ensures i <= |rows|
    ensures i < |rows| ==> rows[i].sip == s && forall j | i < j < |rows| :: rows[j].sip != s
    ensures i == |rows| ==> forall j | 0 <= j < |rows| :: rows[j].sip != s
  {
    if rows == [] then 0
    else
      var n: nat := |rows| - 1;
      if rows[n].sip == s then n
      else
        var i := Newest(rows[..n], s);
        assert forall j | 0 <= j < n :: rows[..n][j] == rows[j];
        if i < n then i else |rows|
  }

  predicate Enabled(w: World, s: Step) {
    match s
    case Start(limit) => limit > 0
    case Dispatch(i) => i < |w.rows| && Live(w.rows[i])
    case StageWrite(i, state, complete) => i < |w.rows| && i in w.dispatched && StageMayWrite(state, complete)
    case Park(i, close) =>
      i < |w.rows| && if close then w.rows[i].state.AipStoreFailed? else IsStage6(w.rows[i].state)
    case Reopen(sip) => Newest(w.rows, sip) < |w.rows|
    case Elsewhere(i, row) => i < |w.rows| && (i in w.dispatched ==> row.sip == w.rows[i].sip)
    case _ => true
  }

  function Cancelled(rows: seq<QRow>, batch: nat): seq<QRow> {
    seq(|rows|, i requires 0 <= i < |rows| =>
      if rows[i].batch == Some(batch) && rows[i].state.AipStorePending?
      then rows[i].(state := CancelledByUser, complete := true) else rows[i])
  }

  function Apply(w: World, s: Step): World
    requires Enabled(w, s)
  {
    match s
    case Start(limit) =>
      var ids := Candidates(w.objs, w.rows, limit);
      if ids == [] then w
      else w.(rows := w.rows + Enqueued(w.objs, ids, w.nextBatch), nextBatch := w.nextBatch + 1)
    case CancelBatch(b) => w.(rows := Cancelled(w.rows, b))
    case Dispatch(i) => w.(dispatched := w.dispatched + {i})
    case StageWrite(i, state, complete) =>
      var r := w.rows[i];
      w.(rows := w.rows[i := r.(state := state, complete := if complete.Some? then complete.value else r.complete)])
    case Settle(i) => w.(dispatched := w.dispatched - {i})
    case Park(i, close) => w.(rows := w.rows[i := w.rows[i].(state := AipStoreFailed, complete := close)])
    case Reopen(sip) =>
      var i := Newest(w.rows, sip);
      w.(rows := w.rows[i := w.rows[i].(state := AipStorePending, complete := false)])
    case Insert(row) => w.(rows := w.rows + [row])
    case Elsewhere(i, row) => w.(rows := w.rows[i := row])
    case Catalogue(objs) => w.(objs := objs)
    case Crash => w.(dispatched := {})
  }

  /** The rows that were there, after a step: each changes as said here, or not at all. */
  lemma StepOnRow(w: World, s: Step, j: nat)
    requires Enabled(w, s) && j < |w.rows|
    ensures var w' := Apply(w, s); var r, r' := w.rows[j], w'.rows[j];
      && j < |w'.rows| && (!s.Elsewhere? ==> r'.batch == r.batch) && (s.Elsewhere? && s.i == j ==> r' == s.row)
      && (s.CancelBatch? && r.batch == Some(s.batch) && r.state.AipStorePending? ==>
            r' == QRow(r.batch, r.sip, CancelledByUser, true))
      && (s.CancelBatch? && !(r.batch == Some(s.batch) && r.state.AipStorePending?) ==> r' == r)
      && (s.StageWrite? && s.i == j ==>
            r'.state == s.state && r'.sip == r.sip && (s.complete.None? ==> r'.complete == r.complete)
            && (s.complete.Some? ==> r'.complete == s.complete.value))
      && (s.Park? && s.i == j ==> r' == QRow(r.batch, r.sip, AipStoreFailed, s.close))
      && (s.Reopen? && r' != r ==>
            r' == QRow(r.batch, s.sip, AipStorePending, false) && forall k | j < k < |w.rows| :: w.rows[k].sip != s.sip)
      && ((s.StageWrite? || s.Park? || s.Elsewhere?) && s.i != j ==> r' == r)
      && (s.Start? || s.Dispatch? || s.Settle? || s.Insert? || s.Catalogue? || s.Crash? ==> r' == r)
  {
  }

  /** What the worker has under way after a step, and the objects. */
  lemma StepOnDispatched(w: World, s: Step, j: nat)
    requires Enabled(w, s)
    ensures j in Apply(w, s).dispatched <==>
            !s.Crash? && s != Settle(j) && (s == Dispatch(j) || j in w.dispatched)
    ensures Apply(w, s).objs == if s.Catalogue? then s.objs else w.objs
  {
  }

  // --- no package is queued twice ------------------------------------------------------------------

  /** The row stands for a copy that is queued or that the worker is still making: a cancelled row
      whose dispatch goes on can be written back to life by its stage. */
  predicate Held(w: World, i: nat) {
    i < |w.rows| && (Live(w.rows[i]) || i in w.dispatched)
  }

  ghost predicate Valid(w: World) {
    forall i | i in w.dispatched :: i < |w.rows|
  }

  ghost predicate HeldDistinct(w: World) {
    forall i: nat, j: nat | i < j && Held(w, i) && Held(w, j) && w.rows[i].sip.Real? :: w.rows[i].sip != w.rows[j].sip
  }

  ghost predicate LiveDistinct(rows: seq<QRow>) {
    forall i, j | 0 <= i < j < |rows| && Live(rows[i]) && Live(rows[j]) && rows[i].sip.Real? :: rows[i].sip != rows[j].sip
  }

  /** Some row other than i holds the package. */
  ghost predicate HeldByOther(w: World, i: nat, s: Sip) {
    s.Real? && exists j: nat :: j != i && Held(w, j) && w.rows[j].sip == s
  }

  ghost predicate DispatchedSip(w: World, s: Sip) {
    exists j: nat :: j < |w.rows| && j in w.dispatched && w.rows[j].sip == s
  }

  /** No two objects that a backfill could take share a package. */
  ghost predicate OnePackageEach(objs: seq<Obj>) {
    forall j, k | 0 <= j < k < |objs| && objs[j].sip.Real? && objs[k].sip.Real? :: objs[j].sip != objs[k].sip
  }

  ghost predicate ChosenDistinct(objs: seq<Obj>, ids: seq<nat>)
    requires forall i | 0 <= i < |ids| :: ids[i] < |objs|
  {
    forall i, j | 0 <= i < j < |ids| :: objs[ids[i]].sip != objs[ids[j]].sip
  }

  /** A candidate's package is still being copied for a row that is not live any more. */
  ghost predicate TakesDispatched(w: World, ids: seq<nat>)
    requires Chosen(w.objs, w.rows, ids)
  {
    exists k: nat :: k < |ids| && DispatchedSip(w, w.objs[ids[k]].sip)
  }

  lemma PackagesDiffer(objs: seq<Obj>, rows: seq<QRow>, ids: seq<nat>)
    requires OnePackageEach(objs) && Chosen(objs, rows, ids) && Ascending(ids)
    ensures ChosenDistinct(objs, ids)
  {
  }

  ghost predicate Started(w: World, ids: seq<nat>, w': World) {
    && (forall k: nat | k < |ids| :: ids[k] < |w.objs|)
    && |w'.rows| == |w.rows| + |ids| && w'.dispatched == w.dispatched
    && (forall i: nat | i < |w.rows| :: w'.rows[i] == w.rows[i])
    && forall i: nat | |w.rows| <= i < |w'.rows| ::
         w'.rows[i] == QRow(Some(w.nextBatch), w.objs[ids[i - |w.rows|]].sip, AipStorePending, false)
  }

  lemma EnqueueKeepsHeldIff(w: World, ids: seq<nat>, w': World)
    requires Valid(w) && HeldDistinct(w) && Chosen(w.objs, w.rows, ids) && Started(w, ids, w')
    ensures HeldDistinct(w') <==> ChosenDistinct(w.objs, ids) && !TakesDispatched(w, ids)
  {
    if HeldDistinct(w') {
      StartedApart(w, ids, w');
    } else {
      var i: nat, j: nat :| i < j && Held(w', i) && Held(w', j) && w'.rows[i].sip.Real? && w'.rows[i].sip == w'.rows[j].sip;
      StartedClash(w, ids, w', i, j);
    }
  }

  lemma StartIs(w: World, limit: nat)
    requires limit > 0
    ensures Started(w, Candidates(w.objs, w.rows, limit), Apply(w, Start(limit)))
  {
  }

  lemma StartedApart(w: World, ids: seq<nat>, w': World)
    requires Chosen(w.objs, w.rows, ids) && Started(w, ids, w') && HeldDistinct(w')
    ensures ChosenDistinct(w.objs, ids) && !TakesDispatched(w, ids)
  {
    var n := |w.rows|;
    forall i, j | 0 <= i < j < |ids| ensures w.objs[ids[i]].sip != w.objs[ids[j]].sip {
      assert Held(w', n + i) && Held(w', n + j) && Missing(w.objs[ids[i]], w.rows);
    }
    forall k: nat | k < |ids| ensures !DispatchedSip(w, w.objs[ids[k]].sip) {
      assert Held(w', n + k) && Missing(w.objs[ids[k]], w.rows);
      forall j: nat | j < n && j in w.dispatched ensures w.rows[j].sip != w.objs[ids[k]].sip {
        assert Held(w', j) && w'.rows[j] == w.rows[j];
      }
    }
  }

  lemma StartedClash(w: World, ids: seq<nat>, w': World, i: nat, j: nat)
    requires Valid(w) && HeldDistinct(w) && Chosen(w.objs, w.rows, ids) && Started(w, ids, w')
    requires i < j && Held(w', i) && Held(w', j) && w'.rows[i].sip.Real? && w'.rows[i].sip == w'.rows[j].sip
    ensures !ChosenDistinct(w.objs, ids) || TakesDispatched(w, ids)
  {
    var n := |w.rows|;
    if n <= i {
      assert w'.rows[i].sip == w.objs[ids[i - n]].sip && w'.rows[j].sip == w.objs[ids[j - n]].sip;
    } else if n <= j {
      var k: nat := j - n;
      assert w'.rows[j].sip == w.objs[ids[k]].sip && Missing(w.objs[ids[k]], w.rows);
      assert w.rows[i] == w'.rows[i] && DispatchedSip(w, w.objs[ids[k]].sip);
    } else {
      assert w.rows[i] == w'.rows[i] && w.rows[j] == w'.rows[j];
      assert Held(w, i) && Held(w, j);
      assert false;
    }
  }

  /** START. Held packages stay distinct exactly when the candidates are distinct by package and
      none of them is still dispatched for a row that is no longer live. */
  lemma StartKeepsHeldIff(w: World, limit: nat)
    requires Valid(w) && HeldDistinct(w) && limit > 0
    ensures var ids := Candidates(w.objs, w.rows, limit);
      HeldDistinct(Apply(w, Start(limit))) <==> ChosenDistinct(w.objs, ids) && !TakesDispatched(w, ids)
    ensures OnePackageEach(w.objs) ==> ChosenDistinct(w.objs, Candidates(w.objs, w.rows, limit))
  {
    var ids := Candidates(w.objs, w.rows, limit);
    StartIs(w, limit);
    EnqueueKeepsHeldIff(w, ids, Apply(w, Start(limit)));
    if OnePackageEach(w.objs) {
      CandidatesCount(w.objs, w.rows, limit);
      PackagesDiffer(w.objs, w.rows, ids);
    }
  }

  /** What a caller can see before the step: it would put a second copy of a held package in the queue. */
  ghost predicate Doubles(w: World, s: Step) {
    match s
    case Start(limit) =>
      var ids := Candidates(w.objs, w.rows, limit);
      !ChosenDistinct(w.objs, ids) || TakesDispatched(w, ids)
    case Reopen(sip) => HeldByOther(w, Newest(w.rows, sip), sip)
    case Insert(row) => Live(row) && HeldByOther(w, |w.rows|, row.sip)
    case Elsewhere(i, row) => Live(row) && HeldByOther(w, i, row.sip)
    case _ => false
  }

  /** One row changes, and is held afterwards if it was dispatched or the new row is live. */
  lemma PutKeepsHeldIff(w: World, i: nat, row: QRow, w': World)
    requires Valid(w) && HeldDistinct(w) && i < |w.rows| && (i in w.dispatched ==> row.sip == w.rows[i].sip)
    requires w'.rows == w.rows[i := row] && w'.dispatched == w.dispatched
    ensures HeldDistinct(w') <==> !(Live(row) && HeldByOther(w, i, row.sip))
  {
    assert forall j: nat | j != i :: Held(w', j) <==> Held(w, j);
    if Live(row) && HeldByOther(w, i, row.sip) {
      var j: nat :| j != i && Held(w, j) && w.rows[j].sip == row.sip;
      assert Held(w', j) && Held(w', i) && w'.rows[j] == w.rows[j] && w'.rows[i] == row;
    } else {
      forall a: nat, b: nat | a < b && Held(w', a) && Held(w', b) && w'.rows[a].sip.Real?
        ensures w'.rows[a].sip != w'.rows[b].sip
      {
        assert a != i ==> w'.rows[a] == w.rows[a] && Held(w, a);
        assert b != i ==> w'.rows[b] == w.rows[b] && Held(w, b);
        assert i in w.dispatched ==> Held(w, i);
      }
    }
  }

  lemma InsertKeepsHeldIff(w: World, row: QRow)
    requires Valid(w) && HeldDistinct(w)
    ensures HeldDistinct(Apply(w, Insert(row))) <==> !(Live(row) && HeldByOther(w, |w.rows|, row.sip))
  {
    var n, w' := |w.rows|, Apply(w, Insert(row));
    assert forall j: nat | j < n :: w'.rows[j] == w.rows[j] && (Held(w', j) <==> Held(w, j));
    assert w'.rows[n] == row && (Held(w', n) <==> Live(row));
    if Live(row) && HeldByOther(w, n, row.sip) {
      var j: nat :| j != n && Held(w, j) && w.rows[j].sip == row.sip;
      assert Held(w', j) && Held(w', n);
    }
  }

  /** Nothing new is held. */
  lemma FewerKeepsHeld(w: World, w': World)
    requires HeldDistinct(w) && |w'.rows| == |w.rows|
    requires forall i: nat | Held(w', i) :: Held(w, i) && w'.rows[i].sip == w.rows[i].sip
    ensures HeldDistinct(w')
  {
  }

  /** BACKFILL, one step: no package is held twice, unless the step is a Start, a retry, an arrival or
      an insert for a package that is already held. */
  lemma StepKeepsHeldIff(w: World, s: Step)
    requires Valid(w) && HeldDistinct(w) && Enabled(w, s)
    ensures Valid(Apply(w, s))
    ensures HeldDistinct(Apply(w, s)) <==> !Doubles(w, s)
  {
    var w' := Apply(w, s);
    match s
    case Start(limit) => StartKeepsHeldIff(w, limit);
    case StageWrite(i, state, complete) =>
      PutKeepsHeldIff(w, i, w'.rows[i], w');
      assert Held(w, i);
    case Park(i, close) => PutKeepsHeldIff(w, i, w'.rows[i], w');
    case Reopen(sip) =>
      var i := Newest(w.rows, sip);
      PutKeepsHeldIff(w, i, w'.rows[i], w');
    case Insert(row) => InsertKeepsHeldIff(w, row);
    case Elsewhere(i, row) => PutKeepsHeldIff(w, i, row, w');
    case _ => FewerKeepsHeld(w, w');
  }

  ghost predicate IsStep(w: World, s: Step, w': World) {
    Enabled(w, s) && w' == Apply(w, s)
  }

  ghost predicate IsRun(ws: seq<World>, steps: seq<Step>) {
    |ws| == |steps| + 1 && forall k | 0 <= k < |steps| :: IsStep(ws[k], steps[k], ws[k + 1])
  }

  lemma HeldThenLive(w: World)
    requires HeldDistinct(w)
    ensures LiveDistinct(w.rows)
  {
    assert forall i: nat | i < |w.rows| && Live(w.rows[i]) :: Held(w, i);
  }

  /** BACKFILL over runs: Start, Cancel, stage 6, crashes and the rest of the system in any order.
      Until a step doubles a held package, no package is live twice. */
  lemma {:induction false} NeverQueuedTwice(ws: seq<World>, steps: seq<Step>, k: nat)
    requires IsRun(ws, steps) && k < |ws| && Valid(ws[0]) && HeldDistinct(ws[0])
    requires forall i | 0 <= i < k :: !Doubles(ws[i], steps[i])
    ensures Valid(ws[k]) && HeldDistinct(ws[k]) && LiveDistinct(ws[k].rows)
  {
    if k > 0 {
      NeverQueuedTwice(ws, steps, k - 1);
      assert IsStep(ws[k - 1], steps[k - 1], ws[k - 1 + 1]);
      StepKeepsHeldIff(ws[k - 1], steps[k - 1]);
    }
    HeldThenLive(ws[k]);
  }

  /** Two objects with one package go into the same batch, and the package is queued twice. */
  lemma SharedPackageIsQueuedTwice(o: Obj)
    requires o.isObject && o.active && o.sip.Real? && !o.decided
    ensures !LiveDistinct(Apply(World([o, o], [], 0, {}), Start(2)).rows)
  {
    var w := World([o, o], [], 0, {});
    assert Missing(o, []) && w.objs[..1] == [o];
    assert MissingCount([o], []) == 1 && MissingCount(w.objs, []) == 2;
    CandidatesCount(w.objs, [], 2);
    var ids := Candidates(w.objs, [], 2);
    assert |ids| == 2 && w.objs[ids[0]].sip == w.objs[ids[1]].sip;
    var rows := Apply(w, Start(2)).rows;
    assert Live(rows[0]) && Live(rows[1]) && rows[0].sip == rows[1].sip;
  }

  /** Whenever a Start takes a package that is still dispatched, the next failure of that copy makes
      it live twice. */
  lemma FailedCopyComesBack(w: World, limit: nat, k: nat, i: nat)
    requires limit > 0 && k < |Candidates(w.objs, w.rows, limit)|
    requires i < |w.rows| && i in w.dispatched && w.rows[i].sip == w.objs[Candidates(w.objs, w.rows, limit)[k]].sip
    ensures var w1 := Apply(w, Start(limit));
      && Enabled(w1, StageWrite(i, AipStorePending, Some(false)))
      && !LiveDistinct(Apply(w1, StageWrite(i, AipStorePending, Some(false))).rows)
  {
    var ids := Candidates(w.objs, w.rows, limit);
    var w1 := Apply(w, Start(limit));
    var rows := Apply(w1, StageWrite(i, AipStorePending, Some(false))).rows;
    assert rows[|w.rows| + k] == Enqueued(w.objs, ids, w.nextBatch)[k];
    assert Live(rows[i]) && Live(rows[|w.rows| + k]) && rows[i].sip == rows[|w.rows| + k].sip;
  }

  /** The package of a cancelled row that its stage has marked as being copied is taken again. */
  lemma CancelledIsTaken(o: Obj, copying: QRow, next: nat)
    requires o.isObject && o.active && o.sip.Real? && !o.decided && copying.complete
    ensures Candidates([o], [copying], 1) == [0]
    ensures Enqueued([o], [0], next) == [QRow(Some(next), o.sip, AipStorePending, false)]
  {
    assert Missing(o, [copying]) && [o][..0] == [];
    assert Candidates([], [copying], 1) == [];
  }

  const PENDING_AGAIN := StageWrite(0, AipStorePending, Some(false))

  /** A row is cancelled between its dispatch and the stage's first write, its package is started
      again, and the copy fails: nothing but Start, Cancel and stage 6, and the package is live twice. */
  lemma CancelThenStartDoubles(o: Obj, batch: nat, next: nat)
    requires o.isObject && o.active && o.sip.Real? && !o.decided
    ensures var w := World([o], [QRow(Some(batch), o.sip, AipStorePending, false)], next, {});
      var steps := [Dispatch(0), CancelBatch(batch), StageWrite(0, AipStoreInProgress, None), Start(1), PENDING_AGAIN];
      HeldDistinct(w) && exists ws: seq<World> :: IsRun(ws, steps) && ws[0] == w && !LiveDistinct(ws[5].rows)
  {
    var r := QRow(Some(batch), o.sip, AipStorePending, false);
    var closed := QRow(Some(batch), o.sip, CancelledByUser, true);
    var copying := QRow(Some(batch), o.sip, AipStoreInProgress, true);
    var again := QRow(Some(next), o.sip, AipStorePending, false);
    var w0, w1 := World([o], [r], next, {}), World([o], [r], next, {0});
    var w2, w3 := World([o], [closed], next, {0}), World([o], [copying], next, {0});
    var w4, w5 := World([o], [copying, again], next + 1, {0}), World([o], [r, again], next + 1, {0});
    assert IsStep(w0, Dispatch(0), w1);
    assert IsStep(w1, CancelBatch(batch), w2) by { assert Cancelled([r], batch) == [closed]; }
    assert IsStep(w2, StageWrite(0, AipStoreInProgress, None), w3);
    assert IsStep(w3, Start(1), w4) by { CancelledIsTaken(o, copying, next); }
    assert IsStep(w4, PENDING_AGAIN, w5);
    assert Live(w5.rows[0]) && Live(w5.rows[1]) && w5.rows[0].sip == w5.rows[1].sip;
    var ws := [w0, w1, w2, w3, w4, w5];
    assert IsRun(ws, [Dispatch(0), CancelBatch(batch), StageWrite(0, AipStoreInProgress, None), Start(1), PENDING_AGAIN]);
  }

  // --- rounds ------------------------------------------------------------------------------------------

  /** Every live row is finished with a decision, and every dispatch has settled. */
  function Drained(w: World): World {
    w.(dispatched := {},
       rows := seq(|w.rows|, i requires 0 <= i < |w.rows| =>
                 if Live(w.rows[i]) then w.rows[i].(state := AipStoreComplete, complete := true) else w.rows[i]),
       objs := seq(|w.objs|, k requires 0 <= k < |w.objs| =>
                 if LiveSip(w.rows, w.objs[k].sip) then w.objs[k].(decided := true) else w.objs[k]))
  }

  ghost predicate NothingLive(rows: seq<QRow>) {
    forall i | 0 <= i < |rows| :: !Live(rows[i])
  }

  function Round(w: World, limit: nat): World
    requires limit > 0
  {
    Drained(Apply(w, Start(limit)))
  }

  lemma {:induction false} CountWithout(objs: seq<Obj>, rows: seq<QRow>, objs': seq<Obj>, rows': seq<QRow>, gone: set<nat>)
    requires |objs'| == |objs| && forall k | k in gone :: k < |objs| && Missing(objs[k], rows)
    requires forall k: nat | k < |objs| :: Missing(objs'[k], rows') <==> Missing(objs[k], rows) && k !in gone
    ensures MissingCount(objs', rows') == MissingCount(objs, rows) - |gone|
  {
    if objs == [] {
      assert gone == {};
    } else {
      var n: nat := |objs| - 1;
      assert forall k: nat | k < n :: objs[..n][k] == objs[k] && objs'[..n][k] == objs'[k];
      CountWithout(objs[..n], rows, objs'[..n], rows', gone - {n});
    }
  }

  function Members(ids: seq<nat>): set<nat> {
    set i | 0 <= i < |ids| :: ids[i]
  }

  lemma MembersSnoc(ids: seq<nat>, k: nat)
    ensures Members(ids + [k]) == Members(ids) + {k}
  {
    var all := ids + [k];
    assert all[|ids|] == k;
    forall x | x in Members(ids) ensures x in Members(all) {
      var i :| 0 <= i < |ids| && ids[i] == x;
      assert all[i] == x;
    }
  }

  lemma {:induction false} AscendingSize(ids: seq<nat>)
    requires Ascending(ids)
    ensures |Members(ids)| == |ids|
  {
    if ids != [] {
      var init, last := ids[..|ids| - 1], ids[|ids| - 1];
      AscendingSize(init);
      MembersSnoc(init, last);
      assert ids == init + [last];
    }
  }

  lemma DrainedIs(w: World)
    ensures var d := Drained(w);
      && NothingLive(d.rows) && |d.objs| == |w.objs| && (OnePackageEach(w.objs) ==> OnePackageEach(d.objs))
      && d.dispatched == {} && d.nextBatch == w.nextBatch && |d.rows| == |w.rows|
      && (forall i | 0 <= i < |w.rows| ::
            d.rows[i] == if IsStage6(w.rows[i].state) && !w.rows[i].complete
                         then QRow(w.rows[i].batch, w.rows[i].sip, AipStoreComplete, true) else w.rows[i])
      && forall k | 0 <= k < |w.objs| ::
           d.objs[k] == if LiveSip(w.rows, w.objs[k].sip) then w.objs[k].(decided := true) else w.objs[k]
  {
  }

  lemma MissingWhenQuiet(o: Obj, rows: seq<QRow>)
    requires NothingLive(rows)
    ensures Missing(o, rows) <==> o.isObject && o.active && o.sip.Real? && !o.decided
  {
  }

  /** One Start-and-drain round takes a full chunk off the missing, or all of them. */
  lemma RoundTakesAChunk(w: World, limit: nat)
    requires OnePackageEach(w.objs) && NothingLive(w.rows) && limit > 0
    ensures var w' := Round(w, limit);
      && OnePackageEach(w'.objs) && NothingLive(w'.rows)
      && MissingCount(w'.objs, w'.rows) == Max(0, MissingCount(w.objs, w.rows) - limit)
  {
    var ids := Candidates(w.objs, w.rows, limit);
    CandidatesCount(w.objs, w.rows, limit);
    AscendingSize(ids);
    var w1 := Apply(w, Start(limit));
    assert w1.rows == w.rows + Enqueued(w.objs, ids, w.nextBatch) && w1.objs == w.objs;
    DrainedIs(w1);
    MissingAfterRound(w, ids, Drained(w1));
  }

  lemma MissingAfterRound(w: World, ids: seq<nat>, d: World)
    requires OnePackageEach(w.objs) && NothingLive(w.rows) && Chosen(w.objs, w.rows, ids) && |Members(ids)| == |ids|
    requires NothingLive(d.rows) && |d.objs| == |w.objs|
    requires forall k | 0 <= k < |w.objs| ::
      d.objs[k] == if LiveSip(w.rows + Enqueued(w.objs, ids, w.nextBatch), w.objs[k].sip)
                   then w.objs[k].(decided := true) else w.objs[k]
    ensures MissingCount(d.objs, d.rows) == MissingCount(w.objs, w.rows) - |ids|
  {
    forall k: nat | k < |w.objs| ensures Missing(d.objs[k], d.rows) <==> Missing(w.objs[k], w.rows) && k !in Members(ids) {
      MissingWhenQuiet(d.objs[k], d.rows);
      MissingWhenQuiet(w.objs[k], w.rows);
      if w.objs[k].sip.Real? { LiveAfterStart(w, ids, k); }
    }
    CountWithout(w.objs, w.rows, d.objs, d.rows, Members(ids));
  }

  /** With nothing live before, exactly the chosen objects' packages are live after the Start. */
  lemma LiveAfterStart(w: World, ids: seq<nat>, k: nat)
    requires OnePackageEach(w.objs) && NothingLive(w.rows) && Chosen(w.objs, w.rows, ids) && k < |w.objs| && w.objs[k].sip.Real?
    ensures LiveSip(w.rows + Enqueued(w.objs, ids, w.nextBatch), w.objs[k].sip) <==> k in Members(ids)
  {
    var added := Enqueued(w.objs, ids, w.nextBatch);
    var rows := w.rows + added;
    LiveAppended(w.rows, added, w.objs[k].sip);
    if k in Members(ids) {
      var i :| 0 <= i < |ids| && ids[i] == k;
      assert Live(added[i]) && added[i].sip == w.objs[k].sip;
    }
    if LiveSip(added, w.objs[k].sip) {
      var i :| 0 <= i < |added| && Live(added[i]) && added[i].sip == w.objs[k].sip;
      SamePackage(w.objs, ids[i], k);
    }
  }

  lemma LiveAppended(rows: seq<QRow>, added: seq<QRow>, s: Sip)
    requires NothingLive(rows)
    ensures LiveSip(rows + added, s) <==> LiveSip(added, s)
  {
    if i :| 0 <= i < |added| && Live(added[i]) && added[i].sip == s {
      assert (rows + added)[|rows| + i] == added[i];
    }
  }

  lemma SamePackage(objs: seq<Obj>, j: nat, k: nat)
    requires OnePackageEach(objs) && j < |objs| && k < |objs| && objs[j].sip == objs[k].sip && objs[j].sip.Real?
    ensures j == k
  {
  }

  function Rounds(w: World, limit: nat, n: nat): World
    requires limit > 0
  {
    if n == 0 then w else Round(Rounds(w, limit, n - 1), limit)
  }

  lemma OneMoreChunk(m: nat, n: nat, limit: nat)
    requires n > 0
    ensures Max(0, Max(0, m - (n - 1) * limit) - limit) == Max(0, m - n * limit)
  {
    assert n * limit == (n - 1) * limit + limit;
  }

  lemma {:induction false} RoundsTakeChunks(w: World, limit: nat, n: nat, m: nat)
    requires OnePackageEach(w.objs) && NothingLive(w.rows) && limit > 0 && m == MissingCount(w.objs, w.rows)
    ensures var w' := Rounds(w, limit, n);
      && OnePackageEach(w'.objs) && NothingLive(w'.rows) && MissingCount(w'.objs, w'.rows) == Max(0, m - n * limit)
  {
    if n > 0 {
      RoundsTakeChunks(w, limit, n - 1, m);
      RoundTakesAChunk(Rounds(w, limit, n - 1), limit);
      OneMoreChunk(m, n, limit);
    }
  }

  /** ROUNDS. Nothing is missing after n rounds exactly when n chunks cover what was missing, so
      ceil(missing / chunk) rounds are enough and no fewer are. */
  lemma RoundsReachZeroIff(w: World, limit: nat, n: nat)
    requires OnePackageEach(w.objs) && NothingLive(w.rows) && limit > 0
    ensures MissingCount(Rounds(w, limit, n).objs, Rounds(w, limit, n).rows) == 0 <==> n * limit >= MissingCount(w.objs, w.rows)
  {
    RoundsTakeChunks(w, limit, n, MissingCount(w.objs, w.rows));
  }

  // --- the class -------------------------------------------------------------------------------------------

  class Backfill {
    const objs: seq<Obj>
    var rows: seq<QRow>
    var nextBatch: nat
    ghost var dispatched: set<nat>   // the worker's, which nothing here changes

    ghost function W(): World
      reads this
    {
      World(objs, rows, nextBatch, dispatched)
    }

    /** enqueue_backfill_batch. */
    method Start(override: Option<int>, configured: Option<int>) returns (count: nat)
      modifies this`rows, this`nextBatch
      ensures W() == Apply(old(W()), Step.Start(ChunkSize(override, configured)))
      ensures count == |rows| - |old(rows)| == Min(ChunkSize(override, configured), MissingCount(objs, old(rows)))
      ensures |rows| >= |old(rows)| && rows[..|old(rows)|] == old(rows) && nextBatch == old(nextBatch) + Min(1, count)
      ensures var ids := Candidates(objs, old(rows), ChunkSize(override, configured));
        && count == |ids|
        && forall i | 0 <= i < count :: ids[i] < |objs| &&
             rows[|old(rows)| + i] == QRow(Some(old(nextBatch)), objs[ids[i]].sip, AipStorePending, false)
    {
      var limit := ChunkSize(override, configured);
      CandidatesCount(objs, rows, limit);
      var ids := Candidates(objs, rows, limit);
      if ids == [] { return 0; }
      var added: seq<QRow> := [];
      var i := 0;
      while i < |ids|
        invariant 0 <= i <= |ids| && |added| == i
        invariant forall j | 0 <= j < i :: added[j] == QRow(Some(nextBatch), objs[ids[j]].sip, AipStorePending, false)
      {
        added := added + [QRow(Some(nextBatch), objs[ids[i]].sip, AipStorePending, false)];
        i := i + 1;
      }
      assert added == Enqueued(objs, ids, nextBatch);
      rows, nextBatch := rows + added, nextBatch + 1;
      count := |added|;
    }

    /** cancel_backfill. */
    method Cancel(batch: nat) returns (cancelled: nat)
      modifies this`rows
      ensures W() == Apply(old(W()), CancelBatch(batch))
      ensures cancelled == |set i | 0 <= i < |old(rows)| && old(rows)[i].batch == Some(batch) && old(rows)[i].state.AipStorePending?|
      ensures |rows| == |old(rows)| && forall i | 0 <= i < |rows| ::
        rows[i] == if old(rows)[i].batch == Some(batch) && old(rows)[i].state.AipStorePending?
                   then QRow(Some(batch), old(rows)[i].sip, CancelledByUser, true) else old(rows)[i]
    {
      var t := rows;
      cancelled := |set i | 0 <= i < |t| && t[i].batch == Some(batch) && t[i].state.AipStorePending?|;
      rows := Cancelled(rows, batch);
    }

    /** get_status over one batch. */
    method GetStatus(batch: nat)
        returns (total: nat, pending: nat, inProgress: nat, complete: nat, failed: nat, cancelled: nat)
      ensures total == Tally(rows, batch, r => true)
      ensures pending == Tally(rows, batch, (r: QRow) => r.state.AipStorePending?)
      ensures inProgress == Tally(rows, batch, (r: QRow) => r.state.AipStoreInProgress?)
      ensures complete == Tally(rows, batch, (r: QRow) => r.state.AipStoreComplete? && r.complete)
      ensures failed == Tally(rows, batch, (r: QRow) => r.state.AipStoreFailed?)
      ensures cancelled == Tally(rows, batch, (r: QRow) => r.state.CancelledByUser?)
      ensures total == pending + inProgress + complete + failed + cancelled <==>
        forall r | r in rows && r.batch == Some(batch) :: IsCounted(r)
    {
      total, pending, inProgress, complete, failed, cancelled := 0, 0, 0, 0, 0, 0;
      var i := 0;
      while i < |rows|
        invariant 0 <= i <= |rows| && pending + inProgress + complete + failed + cancelled <= total
        invariant total == Tally(rows[..i], batch, r => true)
        invariant pending == Tally(rows[..i], batch, (r: QRow) => r.state.AipStorePending?)
        invariant inProgress == Tally(rows[..i], batch, (r: QRow) => r.state.AipStoreInProgress?)
        invariant complete == Tally(rows[..i], batch, (r: QRow) => r.state.AipStoreComplete? && r.complete)
        invariant failed == Tally(rows[..i], batch, (r: QRow) => r.state.AipStoreFailed?)
        invariant cancelled == Tally(rows[..i], batch, (r: QRow) => r.state.CancelledByUser?)
        invariant total == pending + inProgress + complete + failed + cancelled <==>
          forall r | r in rows[..i] && r.batch == Some(batch) :: IsCounted(r)
      {
        var r := rows[i];
        assert rows[..i + 1] == rows[..i] + [r] && rows[..i + 1][..i] == rows[..i];
        if r.batch == Some(batch) {
          total := total + 1;
          if r.state.AipStoreComplete? && r.complete { complete := complete + 1; }
          else if r.state.AipStoreFailed? { failed := failed + 1; }
          else if r.state.AipStoreInProgress? { inProgress := inProgress + 1; }
          else if r.state.AipStorePending? { pending := pending + 1; }
          else if r.state.CancelledByUser? { cancelled := cancelled + 1; }
        }
        i := i + 1;
      }
      assert rows[..i] == rows;
    }
  }

  /** The rows of a batch in one class. */
  function Tally(rows: seq<QRow>, batch: nat, class_: QRow -> bool): nat {
    if rows == [] then 0
    else
      var r := rows[|rows| - 1];
      Tally(rows[..|rows| - 1], batch, class_) + if r.batch == Some(batch) && class_(r) then 1 else 0
  }

  /** ... which is how many rows of it there are. */
  lemma {:induction false} TallyIs(rows: seq<QRow>, batch: nat, class_: QRow -> bool)
    ensures Tally(rows, batch, class_) == |set i: nat | i < |rows| && rows[i].batch == Some(batch) && class_(rows[i])|
  {
    var all := set i: nat | i < |rows| && rows[i].batch == Some(batch) && class_(rows[i]);
    if rows == [] {
      assert all == {};
    } else {
      var n: nat := |rows| - 1;
      var init := rows[..n];
      TallyIs(init, batch, class_);
      var before := set i: nat | i < |init| && init[i].batch == Some(batch) && class_(init[i]);
      assert all == before + if rows[n].batch == Some(batch) && class_(rows[n]) then {n} else {};
    }
  }

  /** The row is in one of the five states that get_status has a counter for. */
  predicate IsCounted(r: QRow) {
    || r.state.AipStorePending? || r.state.AipStoreInProgress? || r.state.AipStoreFailed? || r.state.CancelledByUser?
    || (r.state.AipStoreComplete? && r.complete)
  }
}
