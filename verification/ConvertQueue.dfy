/** The TIFF conversion queue and its serial worker: claim one row, post it, and settle it on a
    later tick, once the derivative has been verified. */
module ConvertQueue {
  import opened Basics

  datatype Status = PENDING | IN_PROGRESS | COMPLETE | FAILED

  datatype QRow = QRow(batch: nat, status: Status, attempts: nat)

  /** A claimed row as the worker remembers it, with the attempts it had when it was claimed. */
  datatype Held = Held(id: nat, attempts: nat)

  datatype Awaiting = Awaiting(row: Held, checks: nat)

  datatype Phase = Idle | Verified | Posting(row: Held)

  /** A row's id and a batch's id are their indexes. */
  datatype World = World(rows: seq<QRow>, totals: seq<nat>, awaiting: Option<Awaiting>, phase: Phase, running: bool)

  datatype Config = Config(maxAttempts: nat, verifyMaxChecks: nat)

  datatype Verdict = Ok | Empty | Missing | Unavailable | Unreachable

  datatype Answer = Acked | HttpError | Threw

  /** What the catch of a post comes to: the row is marked failed, or released because the worker is
      stopping, or that write failed as well. */
  datatype Catch = Counted | Released | Lost

  // --- the table operations -------------------------------------------------------------------

  function Enqueued(rows: seq<QRow>, batch: nat, n: nat): seq<QRow> {
    rows + seq(n, i => QRow(batch, PENDING, 0))
  }

  function Before(rows: seq<QRow>, i: nat, j: nat): bool
    requires i < |rows| && j < |rows|
  {
    rows[i].attempts < rows[j].attempts || (rows[i].attempts == rows[j].attempts && i < j)
  }

  /** claim_one's candidate: the first PENDING row by (attempts, id). */
  function NextPending(rows: seq<QRow>, n: nat): (next: Option<nat>)
    requires n <= |rows|
    ensures next.Some? ==> next.value < n && rows[next.value].status.PENDING?
    ensures forall i: nat | i < n && rows[i].status.PENDING? :: next.Some? && (i == next.value || Before(rows, next.value, i))
  {
    if n == 0 then None
    else
      var next := NextPending(rows, n - 1);
      if rows[n - 1].status.PENDING? && (next.None? || Before(rows, n - 1, next.value)) then Some(n - 1) else next
  }

  function WithStatus(rows: seq<QRow>, id: nat, s: Status): seq<QRow>
    requires id < |rows|
  {
    rows[id := rows[id].(status := s)]
  }

  /** mark_failed counts from the attempts the worker remembers. */
  function MarkedFailed(rows: seq<QRow>, row: Held, max: nat): seq<QRow>
    requires row.id < |rows|
  {
    var attempts := row.attempts + 1;
    rows[row.id := rows[row.id].(attempts := attempts, status := if attempts >= max then FAILED else PENDING)]
  }

  function AllReset(rows: seq<QRow>): seq<QRow> {
    seq(|rows|, i requires 0 <= i < |rows| => if rows[i].status.IN_PROGRESS? then rows[i].(status := PENDING) else rows[i])
  }

  // --- steps -------------------------------------------------------------------------------------

  datatype Step =
    | Enqueue(n: nat)
    | Verify(v: Verdict, saved: bool)         // verify_awaiting; saved: its database write, if any, took
    | Claim(took: bool)                       // took: its transaction took
    | Settle(a: Answer, verifyEnabled: bool, saved: bool, caught: Catch)   // saved: the first write took
    | Crash
    | Boot(saved: bool)
    | Stop(saved: bool)

  predicate Enabled(w: World, s: Step) {
    match s
    case Enqueue(n) => n > 0
    case Verify(_, _) => w.running && w.phase.Idle? && w.awaiting.Some?
    case Claim(_) => w.running && (w.phase.Verified? || (w.phase.Idle? && w.awaiting.None?))
    case Settle(_, _, _, _) => w.running && w.phase.Posting?
    case Crash => true
    case Boot(_) => !w.running
    case Stop(_) => w.running && !w.phase.Posting?   // an aborted post settles first
  }

  predicate Retryable(v: Verdict) {
    v.Missing? || v.Unreachable?
  }

  function AfterVerify(w: World, v: Verdict, saved: bool, cfg: Config): World
    requires w.awaiting.Some? && w.awaiting.value.row.id < |w.rows|
  {
    var a := w.awaiting.value;
    if Retryable(v) && a.checks + 1 < cfg.verifyMaxChecks
    then w.(awaiting := Some(a.(checks := a.checks + 1)), phase := Verified)
    else
      var rows :=
        if !saved then w.rows
        else if v.Ok? || v.Unavailable? then WithStatus(w.rows, a.row.id, COMPLETE)
        else MarkedFailed(w.rows, a.row, cfg.maxAttempts);
      // a failed write throws out of the tick, after `awaiting` has been cleared
      w.(rows := rows, awaiting := None, phase := if saved then Verified else Idle)
  }

  function AfterCatch(rows: seq<QRow>, row: Held, caught: Catch, max: nat): seq<QRow>
    requires row.id < |rows|
  {
    match caught
    case Counted => MarkedFailed(rows, row, max)
    case Released => WithStatus(rows, row.id, PENDING)
    case Lost => rows
  }

  /** A first write that throws lands in the same catch as a post that throws. */
  function AfterSettle(w: World, a: Answer, verifyEnabled: bool, saved: bool, caught: Catch, cfg: Config): World
    requires w.phase.Posting? && w.phase.row.id < |w.rows|
  {
    var row := w.phase.row;
    if a.Acked? && verifyEnabled then w.(awaiting := Some(Awaiting(row, 0)), phase := Idle)
    else
      var rows :=
        if a.Acked? && saved then WithStatus(w.rows, row.id, COMPLETE)
        else if a.HttpError? && saved then MarkedFailed(w.rows, row, cfg.maxAttempts)
        else AfterCatch(w.rows, row, caught, cfg.maxAttempts);
      w.(rows := rows, phase := Idle)
  }

  function Apply(w: World, s: Step, cfg: Config): World
    requires Inv(w, cfg) && Enabled(w, s)
  {
    match s
    case Enqueue(n) => w.(rows := Enqueued(w.rows, |w.totals|, n), totals := w.totals + [n])
    case Verify(v, saved) => AfterVerify(w, v, saved, cfg)
    case Claim(took) =>
      var next := NextPending(w.rows, |w.rows|);
      if next.None? || !took then w.(phase := Idle)
      else w.(rows := WithStatus(w.rows, next.value, IN_PROGRESS),
              phase := Posting(Held(next.value, w.rows[next.value].attempts)))
    case Settle(a, verifyEnabled, saved, caught) => AfterSettle(w, a, verifyEnabled, saved, caught, cfg)
    case Crash => w.(awaiting := None, phase := Idle, running := false)
    case Boot(saved) => w.(rows := if saved then AllReset(w.rows) else w.rows, running := true)
    case Stop(saved) =>
      w.(rows := if saved && w.awaiting.Some? then WithStatus(w.rows, w.awaiting.value.row.id, PENDING) else w.rows,
         awaiting := None, phase := Idle, running := false)
  }

  // --- the invariant -------------------------------------------------------------------------------

  function InBatch(rows: seq<QRow>, b: nat): nat {
    if rows == [] then 0 else InBatch(rows[..|rows| - 1], b) + if rows[|rows| - 1].batch == b then 1 else 0
  }

  /** The dashboard's count of one status in one batch. */
  function Count(rows: seq<QRow>, b: nat, s: Status): nat {
    if rows == [] then 0
    else Count(rows[..|rows| - 1], b, s) + if rows[|rows| - 1].batch == b && rows[|rows| - 1].status == s then 1 else 0
  }

  ghost predicate RowOk(r: QRow, cfg: Config) {
    if r.status.FAILED? then r.attempts == cfg.maxAttempts else r.attempts < cfg.maxAttempts
  }

  ghost predicate Remembers(w: World, row: Held) {
    row.id < |w.rows| && w.rows[row.id].status.IN_PROGRESS? && w.rows[row.id].attempts == row.attempts
  }

  ghost predicate Inv(w: World, cfg: Config) {
    && cfg.maxAttempts > 0
    && (forall i | 0 <= i < |w.rows| :: RowOk(w.rows[i], cfg) && w.rows[i].batch < |w.totals|)
    && (forall b: nat | b < |w.totals| :: InBatch(w.rows, b) == w.totals[b])
    && (w.awaiting.Some? ==> Remembers(w, w.awaiting.value.row))
    && (w.phase.Posting? ==> Remembers(w, w.phase.row))
    && (w.awaiting.Some? && w.phase.Posting? ==> w.awaiting.value.row.id != w.phase.row.id)
    && (!w.running ==> w.awaiting.None? && w.phase.Idle?)
  }

  lemma {:induction false} SameBatches(rows: seq<QRow>, rows': seq<QRow>, b: nat)
    requires |rows'| == |rows| && forall i | 0 <= i < |rows| :: rows'[i].batch == rows[i].batch
    ensures InBatch(rows', b) == InBatch(rows, b)
  {
    if rows != [] { SameBatches(rows[..|rows| - 1], rows'[..|rows| - 1], b); }
  }

  lemma {:induction false} EnqueuedCount(rows: seq<QRow>, batch: nat, n: nat, b: nat)
    ensures InBatch(Enqueued(rows, batch, n), b) == InBatch(rows, b) + if b == batch then n else 0
    decreases n
  {
    var after := Enqueued(rows, batch, n);
    if n == 0 {
      assert after == rows;
    } else {
      EnqueuedCount(rows, batch, n - 1, b);
      assert after[..|after| - 1] == Enqueued(rows, batch, n - 1);
    }
  }

  lemma {:induction false} NoneYet(rows: seq<QRow>, b: nat)
    requires forall i | 0 <= i < |rows| :: rows[i].batch != b
    ensures InBatch(rows, b) == 0
  {
    if rows != [] { NoneYet(rows[..|rows| - 1], b); }
  }

  lemma {:induction false} StatusesPartition(rows: seq<QRow>, b: nat)
    ensures Count(rows, b, PENDING) + Count(rows, b, IN_PROGRESS) + Count(rows, b, COMPLETE) + Count(rows, b, FAILED)
            == InBatch(rows, b)
  {
    if rows != [] { StatusesPartition(rows[..|rows| - 1], b); }
  }

  lemma StepKeepsInv(w: World, s: Step, cfg: Config)
    requires Inv(w, cfg) && Enabled(w, s)
    ensures Inv(Apply(w, s, cfg), cfg)
  {
    var w' := Apply(w, s, cfg);
    if s.Enqueue? {
      forall b: nat | b < |w'.totals| ensures InBatch(w'.rows, b) == w'.totals[b] {
        EnqueuedCount(w.rows, |w.totals|, s.n, b);
        if b == |w.totals| { NoneYet(w.rows, b); }
      }
    } else {
      forall b: nat | b < |w'.totals| ensures InBatch(w'.rows, b) == w'.totals[b] {
        SameBatches(w.rows, w'.rows, b);
      }
    }
  }

  // --- one step's effect on one row --------------------------------------------------------------------

  /** Nobody remembers the row any more. */
  ghost predicate Orphan(w: World, i: nat) {
    && i < |w.rows| && w.rows[i].status.IN_PROGRESS?
    && (w.awaiting.Some? ==> w.awaiting.value.row.id != i)
    && (w.phase.Posting? ==> w.phase.row.id != i)
  }

  predicate Completes(w: World, s: Step, i: nat) {
    || (s.Verify? && (s.v.Ok? || s.v.Unavailable?) && s.saved && w.awaiting.Some? && w.awaiting.value.row.id == i)
    || (s.Settle? && s.a.Acked? && !s.verifyEnabled && s.saved && w.phase.Posting? && w.phase.row.id == i)
  }

  /** A row becomes COMPLETE only on an ok or unavailable verdict on that very row, or, with
      verification off, on its acknowledgement. */
  lemma {:induction false} CompleteOnlyWhen(w: World, s: Step, cfg: Config, i: nat)
    requires Inv(w, cfg) && Enabled(w, s) && i < |w.rows| && !w.rows[i].status.COMPLETE?
    ensures Apply(w, s, cfg).rows[i].status.COMPLETE? <==> Completes(w, s, i)
  {
  }

  /** Attempts never fall, rise by one only with a failure, and a row that has FAILED or been
      COMPLETEd never changes again. */
  lemma AttemptsOnlyRise(w: World, s: Step, cfg: Config, i: nat)
    requires Inv(w, cfg) && Enabled(w, s) && i < |w.rows|
    ensures var r, r' := w.rows[i], Apply(w, s, cfg).rows[i];
      && r.attempts <= r'.attempts <= r.attempts + 1 <= cfg.maxAttempts + 1
      && (r'.attempts > r.attempts ==> r'.status == if r'.attempts == cfg.maxAttempts then FAILED else PENDING)
      && (r.status.FAILED? || r.status.COMPLETE? ==> r' == r)
      && (r'.status.FAILED? && !r.status.FAILED? ==> r'.attempts == cfg.maxAttempts)
  {
  }

  // --- the whole effect of a step on a row, in its own fields -------------------------------------------

  /** The catch of a post runs: the post threw, or the first write after its answer did. */
  predicate Catches(s: Step) {
    s.Settle? && (s.a.Threw? || (!s.saved && !(s.a.Acked? && s.verifyEnabled)))
  }

  /** A failure is recorded on the row: its post is refused and the write takes, its post or that write
      throws and the catch counts it, its derivative is empty, or it stays unconfirmed too often. */
  predicate FailsOn(w: World, s: Step, cfg: Config, i: nat) {
    || (s.Settle? && w.phase.Posting? && w.phase.row.id == i
        && ((s.a.HttpError? && s.saved) || (Catches(s) && s.caught.Counted?)))
    || (s.Verify? && s.saved && w.awaiting.Some? && w.awaiting.value.row.id == i
        && (s.v.Empty? || (Retryable(s.v) && w.awaiting.value.checks + 1 >= cfg.verifyMaxChecks)))
  }

  /** The row goes back to the queue at no cost: its post was aborted, the worker stops while it is
      awaited, or the boot finds it in progress. */
  predicate Releases(w: World, s: Step, i: nat)
    requires i < |w.rows|
  {
    || (s.Settle? && w.phase.Posting? && w.phase.row.id == i && Catches(s) && s.caught.Released?)
    || (s.Stop? && s.saved && w.awaiting.Some? && w.awaiting.value.row.id == i)
    || (s.Boot? && s.saved && w.rows[i].status.IN_PROGRESS?)
  }

  /** The row is the first of the pending ones by attempts and id. */
  ghost predicate IsNext(rows: seq<QRow>, i: nat) {
    && i < |rows| && rows[i].status.PENDING?
    && forall j: nat | j < |rows| && rows[j].status.PENDING? && j != i ::
         rows[i].attempts < rows[j].attempts || (rows[i].attempts == rows[j].attempts && i < j)
  }

  lemma NextIs(rows: seq<QRow>, i: nat)
    ensures NextPending(rows, |rows|) == Some(i) <==> IsNext(rows, i)
  {
  }

  /** ROW BY ROW. A step leaves a row alone unless it claims it, completes it, releases it or records a
      failure on it; a failure costs exactly one attempt, and fails the row for good exactly when that
      was its last. */
  lemma StepOnRow(w: World, s: Step, cfg: Config, i: nat)
    requires Inv(w, cfg) && Enabled(w, s) && i < |w.rows|
    ensures var r := w.rows[i];
      Apply(w, s, cfg).rows[i] == (
        if FailsOn(w, s, cfg, i)
        then QRow(r.batch, if r.attempts + 1 == cfg.maxAttempts then FAILED else PENDING, r.attempts + 1)
        else if Completes(w, s, i) then QRow(r.batch, COMPLETE, r.attempts)
        else if Releases(w, s, i) then QRow(r.batch, PENDING, r.attempts)
        else if s == Claim(true) && IsNext(w.rows, i) then QRow(r.batch, IN_PROGRESS, r.attempts)
        else r)
  {
    if s.Claim? { NextIs(w.rows, i); }
  }

  lemma StepOnTable(w: World, s: Step, cfg: Config)
    requires Inv(w, cfg) && Enabled(w, s)
    ensures var w' := Apply(w, s, cfg);
      && |w'.rows| == |w.rows| + (if s.Enqueue? then s.n else 0)
      && (forall i | |w.rows| <= i < |w'.rows| :: w'.rows[i] == QRow(|w.totals|, PENDING, 0))
      && w'.totals == w.totals + if s.Enqueue? then [s.n] else []
  {
  }

  /** What the worker remembers: a verdict that can be retried keeps the row awaited for one more check
      while there are checks left; an acknowledgement to be verified is awaited from the start; and a
      claim that took posts the next row, with the attempts it has. */
  lemma StepOnMemory(w: World, s: Step, cfg: Config)
    requires Inv(w, cfg) && Enabled(w, s)
    ensures var w' := Apply(w, s, cfg); var waits := s.Verify? && Waits(s.v, w.awaiting.value, cfg);
      && (w'.running <==> s.Boot? || (w.running && !s.Crash? && !s.Stop?))
      && w'.awaiting ==
           (if waits then Some(Awaiting(w.awaiting.value.row, w.awaiting.value.checks + 1))
            else if s.Settle? && s.a.Acked? && s.verifyEnabled then Some(Awaiting(w.phase.row, 0))
            else if s.Verify? || s.Crash? || s.Stop? then None else w.awaiting)
      && (s.Verify? ==> w'.phase == if waits || s.saved then Verified else Idle)
      && (s.Settle? || s.Crash? || s.Stop? ==> w'.phase == Idle)
      && (s.Enqueue? || s.Boot? ==> w'.phase == w.phase)
      && (s.Claim? && (!s.took || forall i | 0 <= i < |w.rows| :: !w.rows[i].status.PENDING?) ==> w'.phase == Idle)
      && forall i: nat | s == Claim(true) && IsNext(w.rows, i) :: w'.phase == Posting(Held(i, w.rows[i].attempts))
  {
    if s.Claim? {
      forall i: nat | IsNext(w.rows, i) ensures NextPending(w.rows, |w.rows|) == Some(i) { NextIs(w.rows, i); }
    }
  }

  /** The verdict may change, and there is a check left for it. */
  predicate Waits(v: Verdict, a: Awaiting, cfg: Config) {
    (v.Missing? || v.Unreachable?) && a.checks + 1 < cfg.verifyMaxChecks
  }

  /** One attempt spent: queued again, or failed if it was the last. */
  predicate FailedOnce(before: QRow, after: QRow, max: nat) {
    after == QRow(before.batch, if before.attempts + 1 == max then FAILED else PENDING, before.attempts + 1)
  }

  /** Only this row differs. */
  ghost predicate OthersKept(before: seq<QRow>, after: seq<QRow>, id: nat) {
    |after| == |before| && forall i | 0 <= i < |before| && i != id :: after[i] == before[i]
  }

  /** An orphaned row stays as it is through every step but the reset at boot. */
  lemma OrphanUntilBoot(w: World, s: Step, cfg: Config, i: nat)
    requires Inv(w, cfg) && Enabled(w, s) && Orphan(w, i)
    ensures if s.Boot? && s.saved then Apply(w, s, cfg).rows[i] == w.rows[i].(status := PENDING)
            else Orphan(Apply(w, s, cfg), i) && Apply(w, s, cfg).rows[i] == w.rows[i]
  {
  }

  /** An awaited row whose verdict is retryable is orphaned when the next post is acknowledged. */
  lemma OverwrittenIsOrphan(w: World, cfg: Config, v: Verdict, saved: bool, caught: Catch)
    requires Inv(w, cfg) && w.running && w.phase.Idle? && w.awaiting.Some?
    requires Retryable(v) && w.awaiting.value.checks + 1 < cfg.verifyMaxChecks
    requires NextPending(w.rows, |w.rows|).Some?
    ensures var w1 := Apply(w, Verify(v, saved), cfg);
      && Inv(w1, cfg) && Enabled(w1, Claim(true))
      && var w2 := Apply(w1, Claim(true), cfg);
      && Inv(w2, cfg) && Enabled(w2, Settle(Acked, true, saved, caught))
      && Orphan(Apply(w2, Settle(Acked, true, saved, caught), cfg), w.awaiting.value.row.id)
  {
    StepKeepsInv(w, Verify(v, saved), cfg);
    StepKeepsInv(Apply(w, Verify(v, saved), cfg), Claim(true), cfg);
  }

  /** BOOT returns every IN_PROGRESS row, the orphans among them, to PENDING, attempts unchanged,
      and leaves the rest alone. */
  lemma BootReturnsAll(w: World, cfg: Config)
    requires Inv(w, cfg) && !w.running
    ensures var rows := Apply(w, Boot(true), cfg).rows;
      && |rows| == |w.rows|
      && (forall i | 0 <= i < |rows| :: rows[i].attempts == w.rows[i].attempts && !rows[i].status.IN_PROGRESS?)
      && (forall i | 0 <= i < |rows| :: rows[i].status ==
            if w.rows[i].status.IN_PROGRESS? then PENDING else w.rows[i].status)
  {
  }

  // --- runs ---------------------------------------------------------------------------------------------

  const EMPTY := World([], [], None, Idle, false)

  /** A run from the empty queue; Apply is defined where Inv holds, which is everywhere on it. */
  ghost predicate IsRun(ws: seq<World>, steps: seq<Step>, cfg: Config) {
    && |ws| == |steps| + 1 && ws[0] == EMPTY
    && forall k | 0 <= k < |steps| :: Inv(ws[k], cfg) ==> Enabled(ws[k], steps[k]) && ws[k + 1] == Apply(ws[k], steps[k], cfg)
  }

  /** CONVERT QUEUE. On every run: each batch's four counts add up to its total, attempts stay
      within the maximum and reach it exactly in the rows that FAILED. */
  lemma {:induction false} CountsAndCaps(ws: seq<World>, steps: seq<Step>, cfg: Config, k: nat)
    requires IsRun(ws, steps, cfg) && k < |ws| && cfg.maxAttempts > 0
    ensures Inv(ws[k], cfg)
    ensures forall b: nat | b < |ws[k].totals| ::
      Count(ws[k].rows, b, PENDING) + Count(ws[k].rows, b, IN_PROGRESS) + Count(ws[k].rows, b, COMPLETE)
      + Count(ws[k].rows, b, FAILED) == ws[k].totals[b]
    ensures forall i | 0 <= i < |ws[k].rows| ::
      ws[k].rows[i].attempts <= cfg.maxAttempts && (ws[k].rows[i].status.FAILED? <==> ws[k].rows[i].attempts == cfg.maxAttempts)
  {
    if k > 0 {
      CountsAndCaps(ws, steps, cfg, k - 1);
      StepKeepsInv(ws[k - 1], steps[k - 1], cfg);
    }
    forall b: nat | b < |ws[k].totals|
      ensures Count(ws[k].rows, b, PENDING) + Count(ws[k].rows, b, IN_PROGRESS) + Count(ws[k].rows, b, COMPLETE)
              + Count(ws[k].rows, b, FAILED) == ws[k].totals[b]
    {
      StatusesPartition(ws[k].rows, b);
    }
    assert forall i | 0 <= i < |ws[k].rows| :: RowOk(ws[k].rows[i], cfg);
  }

  /** PROVENANCE. Behind every COMPLETE row of a run stands one step that completed it: an ok or
      unavailable verdict on that row, or an acknowledgement with verification off. */
  lemma {:induction false} CompletedBy(ws: seq<World>, steps: seq<Step>, cfg: Config, k: nat, i: nat) returns (j: nat)
    requires IsRun(ws, steps, cfg) && k < |ws| && cfg.maxAttempts > 0
    requires i < |ws[k].rows| && ws[k].rows[i].status.COMPLETE?
    ensures j < k && i < |ws[j].rows| && !ws[j].rows[i].status.COMPLETE? && Completes(ws[j], steps[j], i)
    ensures forall m | j < m <= k :: i < |ws[m].rows| && ws[m].rows[i] == ws[k].rows[i]
  {
    CountsAndCaps(ws, steps, cfg, k - 1);
    var w, s := ws[k - 1], steps[k - 1];
    if i < |w.rows| {
      AttemptsOnlyRise(w, s, cfg, i);
      if w.rows[i].status.COMPLETE? {
        j := CompletedBy(ws, steps, cfg, k - 1, i);
      } else {
        CompleteOnlyWhen(w, s, cfg, i);
        j := k - 1;
      }
    } else {
      assert false;
    }
  }

  /** The failures recorded on row i in the first k steps. */
  function Failures(ws: seq<World>, steps: seq<Step>, cfg: Config, k: nat, i: nat): nat
    requires k <= |steps| < |ws|
  {
    if k == 0 then 0 else Failures(ws, steps, cfg, k - 1, i) + if FailsOn(ws[k - 1], steps[k - 1], cfg, i) then 1 else 0
  }

  lemma NotYetThere(w: World, s: Step, cfg: Config, i: nat)
    requires Inv(w, cfg) && i >= |w.rows|
    ensures !FailsOn(w, s, cfg, i)
  {
  }

  /** ATTEMPTS ARE FAILURES. At every point of every run a row's attempts are the failures recorded on
      it so far, so it has FAILED exactly when there have been maxAttempts of them. */
  lemma {:induction false} AttemptsAreFailures(ws: seq<World>, steps: seq<Step>, cfg: Config, k: nat, i: nat)
    requires IsRun(ws, steps, cfg) && k < |ws| && cfg.maxAttempts > 0
    ensures if i < |ws[k].rows| then ws[k].rows[i].attempts == Failures(ws, steps, cfg, k, i)
            else Failures(ws, steps, cfg, k, i) == 0
    ensures i < |ws[k].rows| ==> (ws[k].rows[i].status.FAILED? <==> Failures(ws, steps, cfg, k, i) == cfg.maxAttempts)
  {
    CountsAndCaps(ws, steps, cfg, k);
    if k > 0 {
      AttemptsAreFailures(ws, steps, cfg, k - 1, i);
      CountsAndCaps(ws, steps, cfg, k - 1);
      var w, s := ws[k - 1], steps[k - 1];
      assert ws[k - 1 + 1] == Apply(w, s, cfg);
      StepOnTable(w, s, cfg);
      if i < |w.rows| { StepOnRow(w, s, cfg, i); } else { NotYetThere(w, s, cfg, i); }
    }
  }

  /** A row that has FAILED or been COMPLETEd stays as it is on every run, and is never claimed again. */
  lemma {:induction false} SettledForGood(ws: seq<World>, steps: seq<Step>, cfg: Config, k: nat, m: nat, i: nat)
    requires IsRun(ws, steps, cfg) && k <= m < |ws| && cfg.maxAttempts > 0
    requires i < |ws[k].rows| && (ws[k].rows[i].status.FAILED? || ws[k].rows[i].status.COMPLETE?)
    ensures i < |ws[m].rows| && ws[m].rows[i] == ws[k].rows[i] && !IsNext(ws[m].rows, i)
  {
    if k < m {
      SettledForGood(ws, steps, cfg, k, m - 1, i);
      CountsAndCaps(ws, steps, cfg, m - 1);
      assert ws[m - 1 + 1] == Apply(ws[m - 1], steps[m - 1], cfg);
      StepOnTable(ws[m - 1], steps[m - 1], cfg);
      AttemptsOnlyRise(ws[m - 1], steps[m - 1], cfg, i);
    }
  }

  /** An overwritten row waits, attempts unchanged, for as long as no boot resets it. */
  lemma {:induction false} OrphanWaits(ws: seq<World>, steps: seq<Step>, cfg: Config, a: nat, b: nat, i: nat)
    requires IsRun(ws, steps, cfg) && a <= b < |ws| && cfg.maxAttempts > 0
    requires Orphan(ws[a], i)
    requires forall k | a <= k < b :: !(steps[k].Boot? && steps[k].saved)
    ensures Orphan(ws[b], i) && ws[b].rows[i] == ws[a].rows[i]
  {
    if a < b {
      OrphanWaits(ws, steps, cfg, a, b - 1, i);
      CountsAndCaps(ws, steps, cfg, b - 1);
      OrphanUntilBoot(ws[b - 1], steps[b - 1], cfg, i);
    }
  }

  /** What decides a tick from outside: whether the service is configured, the verdict on the
      awaited row and its write, a stop requested meanwhile, and then the claim, the post and its
      writes. */
  datatype Outside = Outside(
    configured: bool, verdict: Verdict, savedVerify: bool, stops: bool, claims: bool,
    answer: Answer, verifyEnabled: bool, savedPost: bool, caught: Catch)

  /** A whole tick: verify what is awaited, claim, post, settle. */
  ghost function Ticked(w: World, o: Outside, cfg: Config): (w': World)
    requires Inv(w, cfg) && w.running && w.phase.Idle?
    ensures Inv(w', cfg) && w'.phase.Idle? && w'.running
  {
    if !o.configured then w
    else
      var verify := Verify(o.verdict, o.savedVerify);
      var w1 := if w.awaiting.Some? then StepKeepsInv(w, verify, cfg); Apply(w, verify, cfg) else w;
      if w.awaiting.Some? && (w1.phase.Idle? || o.stops) then w1.(phase := Idle)
      else
        StepKeepsInv(w1, Claim(o.claims), cfg);
        var w2 := Apply(w1, Claim(o.claims), cfg);
        var settle := Settle(o.answer, o.verifyEnabled, o.savedPost, o.caught);
        if w2.phase.Idle? then w2 else StepKeepsInv(w2, settle, cfg); Apply(w2, settle, cfg)
  }

  // --- the worker ---------------------------------------------------------------------------------------

  class Worker {
    const cfg: Config
    var rows: seq<QRow>
    var totals: seq<nat>
    var awaiting: Option<Awaiting>
    var running: bool

    ghost function W(phase: Phase): World
      reads this
    {
      World(rows, totals, awaiting, phase, running)
    }

    constructor (cfg: Config)
      requires cfg.maxAttempts > 0
      ensures W(Idle) == EMPTY && Inv(W(Idle), cfg) && this.cfg == cfg
      ensures rows == [] && totals == [] && awaiting == None && !running
    {
      this.cfg := cfg;
      rows, totals, awaiting, running := [], [], None, false;
    }

    /** verify_awaiting; false says that its database write threw. */
    method VerifyAwaiting(verdict: Verdict, saved: bool) returns (ok: bool)
      requires Inv(W(Idle), cfg) && running && awaiting.Some?
      modifies this`rows, this`awaiting
      ensures W(if ok then Verified else Idle) == Apply(old(W(Idle)), Verify(verdict, saved), cfg)
      ensures Inv(W(if ok then Verified else Idle), cfg)
      ensures ok <==> saved || (Retryable(verdict) && old(awaiting).value.checks + 1 < cfg.verifyMaxChecks)
      ensures var a := old(awaiting).value; var id := a.row.id;
        && id < |old(rows)| && OthersKept(old(rows), rows, id)
        && awaiting == (if Waits(verdict, a, cfg) then Some(Awaiting(a.row, a.checks + 1)) else None)
        && (if Waits(verdict, a, cfg) || !saved then rows[id] == old(rows)[id]
            else if verdict.Ok? || verdict.Unavailable?
            then rows[id] == QRow(old(rows)[id].batch, COMPLETE, old(rows)[id].attempts)
            else FailedOnce(old(rows)[id], rows[id], cfg.maxAttempts))
    {
      StepKeepsInv(W(Idle), Verify(verdict, saved), cfg);
      var a := awaiting.value;
      match verdict {
        case Ok =>
          awaiting := None;
          if !saved { return false; }
          rows := WithStatus(rows, a.row.id, COMPLETE);
        case Unavailable =>
          awaiting := None;
          if !saved { return false; }
          rows := WithStatus(rows, a.row.id, COMPLETE);
        case Empty =>
          awaiting := None;
          if !saved { return false; }
          rows := MarkedFailed(rows, a.row, cfg.maxAttempts);
        case _ =>
          a := a.(checks := a.checks + 1);
          awaiting := Some(a);
          if a.checks >= cfg.verifyMaxChecks {
            awaiting := None;
            if !saved { return false; }
            rows := MarkedFailed(rows, a.row, cfg.maxAttempts);
          }
      }
      return true;
    }

    /** claim_one; None also when its transaction failed. */
    method ClaimOne(took: bool) returns (row: Option<Held>)
      requires running && (Inv(W(Verified), cfg) || (awaiting.None? && Inv(W(Idle), cfg)))
      modifies this`rows
      ensures W(if row.Some? then Posting(row.value) else Idle)
           == Apply(old(W(if awaiting.None? then Idle else Verified)), Claim(took), cfg)
      ensures Inv(W(if row.Some? then Posting(row.value) else Idle), cfg)
    {
      StepKeepsInv(W(if awaiting.None? then Idle else Verified), Claim(took), cfg);
      if !took { return None; }
      var next := NextPending(rows, |rows|);
      if next.None? { return None; }
      row := Some(Held(next.value, rows[next.value].attempts));
      rows := WithStatus(rows, next.value, IN_PROGRESS);
    }

    /** The rest of tick_once: the post's answer, its write, and the catch around both. */
    method SettlePost(row: Held, answer: Answer, verifyEnabled: bool, saved: bool, caught: Catch)
      requires running && Inv(W(Posting(row)), cfg)
      modifies this`rows, this`awaiting
      ensures W(Idle) == Apply(old(W(Posting(row))), Settle(answer, verifyEnabled, saved, caught), cfg)
      ensures Inv(W(Idle), cfg)
      ensures awaiting == if answer.Acked? && verifyEnabled then Some(Awaiting(row, 0)) else old(awaiting)
      ensures row.id < |old(rows)| && OthersKept(old(rows), rows, row.id)
      ensures var r, r' := old(rows)[row.id], rows[row.id];
        if answer.Acked? && verifyEnabled then r' == r
        else if answer.Acked? && saved then r' == QRow(r.batch, COMPLETE, r.attempts)
        else if (answer.HttpError? && saved) || caught.Counted? then FailedOnce(r, r', cfg.maxAttempts)
        else r' == if caught.Released? then QRow(r.batch, PENDING, r.attempts) else r
    {
      StepKeepsInv(W(Posting(row)), Settle(answer, verifyEnabled, saved, caught), cfg);
      var threw := answer.Threw?;
      if answer.Acked? && verifyEnabled {
        awaiting := Some(Awaiting(row, 0));
      } else if answer.Acked? {
        if saved { rows := WithStatus(rows, row.id, COMPLETE); } else { threw := true; }
      } else if answer.HttpError? {
        if saved { rows := MarkedFailed(rows, row, cfg.maxAttempts); } else { threw := true; }
      }
      if threw {
        match caught
        case Released => rows := WithStatus(rows, row.id, PENDING);
        case Counted => rows := MarkedFailed(rows, row, cfg.maxAttempts);
        case Lost =>
      }
    }

    /** tick_once of a worker that is not stopping when it begins. */
    method TickOnce(o: Outside) returns (worked: bool, threw: bool)
      requires Inv(W(Idle), cfg) && running
      modifies this`rows, this`awaiting
      ensures Inv(W(Idle), cfg) && W(Idle) == Ticked(old(W(Idle)), o, cfg)
      ensures threw <==> (o.configured && old(awaiting).Some? && !o.savedVerify
        && !(Retryable(o.verdict) && old(awaiting).value.checks + 1 < cfg.verifyMaxChecks))
      ensures worked <==> (o.configured && !threw
        && (old(awaiting).Some? || (o.claims && exists i :: 0 <= i < |old(rows)| && old(rows)[i].status.PENDING?)))
    {
      worked, threw := false, false;
      if !o.configured { return; }
      if awaiting.Some? {
        var ok := VerifyAwaiting(o.verdict, o.savedVerify);
        if !ok { return false, true; }
        worked := true;
        if o.stops { return; }
      }
      var row := ClaimOne(o.claims);
      if row.None? { return; }
      SettlePost(row.value, o.answer, o.verifyEnabled, o.savedPost, o.caught);
      worked := true;
    }

    /** start; the worker stays idle while it is disabled or the service is not configured. */
    method Start(enabled: bool, configured: bool, saved: bool)
      requires Inv(W(Idle), cfg)
      modifies this`rows, this`running
      ensures old(running) || !enabled || !configured ==> W(Idle) == old(W(Idle))
      ensures !old(running) && enabled && configured ==> W(Idle) == Apply(old(W(Idle)), Boot(saved), cfg)
      ensures (running <==> old(running) || (enabled && configured)) && |rows| == |old(rows)|
      ensures forall i | 0 <= i < |rows| ::
        rows[i] == if !old(running) && running && saved && old(rows)[i].status == IN_PROGRESS
                   then QRow(old(rows)[i].batch, PENDING, old(rows)[i].attempts) else old(rows)[i]
      ensures Inv(W(Idle), cfg)
    {
      if running || !enabled || !configured { return; }
      StepKeepsInv(W(Idle), Boot(saved), cfg);
      running := true;
      if saved { rows := AllReset(rows); }
    }

    /** stop, once the post in flight has settled. */
    method Stop(saved: bool)
      requires Inv(W(Idle), cfg)
      modifies this`rows, this`awaiting, this`running
      ensures old(running) ==> W(Idle) == Apply(old(W(Idle)), Step.Stop(saved), cfg)
      ensures Inv(W(Idle), cfg) && !running
      ensures |rows| == |old(rows)| && forall i | 0 <= i < |rows| ::
        rows[i] == if old(running) && saved && old(awaiting).Some? && i == old(awaiting).value.row.id
                   then QRow(old(rows)[i].batch, PENDING, old(rows)[i].attempts) else old(rows)[i]
      ensures old(running) ==> awaiting == None
    {
      if !running { return; }
      StepKeepsInv(W(Idle), Step.Stop(saved), cfg);
      if awaiting.Some? {
        if saved { rows := WithStatus(rows, awaiting.value.row.id, PENDING); }
        awaiting := None;
      }
      running := false;
    }
  }

  // --- what is enqueued ------------------------------------------------------------------------------------

  datatype Part = Part(objectPath: string, mime: string)

  /** A row of the object table: its parts, and the master file with its MIME. */
  datatype ObjectRow = ObjectRow(parts: seq<Part>, fileName: string, mime: string)

  /** The parts that name a file. */
  function Named(parts: seq<Part>): (named: seq<Part>)
    ensures forall p :: p in named <==> p in parts && p.objectPath != ""
  {
    if parts == [] then []
    else
      var p := parts[|parts| - 1];
      Named(parts[..|parts| - 1]) + if p.objectPath == "" then [] else [p]
  }

  /** The row has this file to convert: an eligible part's, or the master when no part names one. */
  predicate Wanted(row: ObjectRow, eligible: string -> bool, f: string) {
    f != "" &&
    if (exists p :: p in row.parts && p.objectPath != "")
    then exists p :: p in row.parts && p.objectPath == f && eligible(p.mime)
    else f == row.fileName && eligible(row.mime)
  }

  /** expand_row: no file is enqueued twice, and none is missed. */
  method ExpandRow(row: ObjectRow, eligible: string -> bool) returns (files: seq<string>)
    ensures Distinct(files)
    ensures forall f :: f in files <==> Wanted(row, eligible, f)
  {
    var seen: set<string> := {};
    files := [];
    var parts := Named(row.parts);
    if |parts| == 0 {
      assert forall p | p in row.parts :: p.objectPath == "" by { assert forall p | p in row.parts :: p !in parts; }
      if row.fileName != "" && eligible(row.mime) { files := [row.fileName]; }
      return;
    }
    assert parts[0] in parts;
    var i := 0;
    while i < |parts|
      invariant 0 <= i <= |parts| && seen == (set f | f in files) && Distinct(files)
      invariant forall f :: f in files <==> exists k :: 0 <= k < i && parts[k].objectPath == f && eligible(parts[k].mime)
    {
      var p := parts[i];
      if eligible(p.mime) && p.objectPath !in seen {
        seen := seen + {p.objectPath};
        files := files + [p.objectPath];
      }
      i := i + 1;
    }
    forall f ensures f in files <==> Wanted(row, eligible, f) {
      if f in files {
        var k :| 0 <= k < i && parts[k].objectPath == f && eligible(parts[k].mime);
        assert parts[k] in parts;
      }
      if Wanted(row, eligible, f) {
        var p :| p in row.parts && p.objectPath == f && eligible(p.mime);
        assert p in parts;
      }
    }
  }
}
