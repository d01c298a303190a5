/** One package's way through the pipeline with its staging folder, and the recovery action
    that reads the event log back to decide whether the folder has to be moved.

    Nothing the repository stores says where the folder is. Return to Packaging infers it from the
    state a cancelled row was in, and is right exactly when that state and the outcomes of stage 2's
    moves tell the same story. */
module FolderRecovery {
  import opened Basics
  import opened PipelineStates
  import opened IngestQueue
  import IngestGates

  /** Ready is 001-ready, InIngest is 002-ingest; Archived is stage 5's copy-and-remove. */
  datatype Folder = Ready | InIngest | Archived

  /** How far a stage 2 run is: it writes Uploading, then asks for the move, whose answer it does
      not look at; only a call that throws makes it halt. */
  datatype Leg = NotStarted | Owed | Answered | Threw | Over

  datatype Dispatched = Idle | Running(entry: State, leg: Leg)

  datatype Package = Package(
    id: Id, state: State, complete: bool, log: seq<Event>, folder: Folder, run: Dispatched)

  // --- reading the prior state back ------------------------------------------------------

  predicate Matches(e: Event, to: State) {
    e.kind.StaffAction? && e.to == to
  }

  /** ORDER BY created_at DESC LIMIT 1 may answer with any match of the greatest created_at. */
  predicate MayAnswer(log: seq<Event>, to: State, i: nat) {
    && i < |log| && Matches(log[i], to)
    && forall j | 0 <= j < |log| && Matches(log[j], to) :: log[j].at <= log[i].at
  }

  /** _prev_state_from_event. */
  ghost predicate PrevIs(log: seq<Event>, to: State, prev: Option<State>) {
    if exists i :: 0 <= i < |log| && Matches(log[i], to)
    then exists i: nat :: MayAnswer(log, to, i) && prev == log[i].payloadFrom
    else prev == None
  }

  /** What the log means: the `from` of the last matching event appended. */
  function LastFrom(log: seq<Event>, to: State): Option<State> {
    if log == [] then None
    else if Matches(log[|log| - 1], to) then log[|log| - 1].payloadFrom
    else LastFrom(log[..|log| - 1], to)
  }

  /** No two matching events share a created_at. */
  ghost predicate Sharp(log: seq<Event>, to: State) {
    forall i, j | 0 <= i < j < |log| && Matches(log[i], to) && Matches(log[j], to) :: log[i].at < log[j].at
  }

  lemma {:induction false} LastFromIs(log: seq<Event>, to: State) returns (last: nat)
    requires exists i :: 0 <= i < |log| && Matches(log[i], to)
    ensures last < |log| && Matches(log[last], to) && LastFrom(log, to) == log[last].payloadFrom
    ensures forall j | last < j < |log| :: !Matches(log[j], to)
  {
    last := |log| - 1;
    if !Matches(log[last], to) {
      var i :| 0 <= i < |log| && Matches(log[i], to);
      var init := log[..|log| - 1];
      assert Matches(init[i], to);
      last := LastFromIs(init, to);
      assert forall j | 0 <= j < |init| :: init[j] == log[j];
    }
  }

  lemma {:induction false} OnlyLast(log: seq<Event>, to: State, last: nat, i: nat)
    requires Sharp(log, to) && last < |log| && Matches(log[last], to) && MayAnswer(log, to, i)
    requires forall j | last < j < |log| :: !Matches(log[j], to)
    ensures i == last
  {
    assert log[last].at <= log[i].at;
    assert !(i < last);
  }

  lemma {:induction false} LastAnswers(log: seq<Event>, to: State, last: nat)
    requires Sharp(log, to) && last < |log| && Matches(log[last], to)
    requires forall j | last < j < |log| :: !Matches(log[j], to)
    ensures MayAnswer(log, to, last)
  {
    forall j | 0 <= j < |log| && Matches(log[j], to) ensures log[j].at <= log[last].at {
      assert j < last ==> log[j].at < log[last].at;
    }
  }

  /** With distinct timestamps the query reads the last matching event, and nothing else. */
  lemma {:induction false} SharpAnswer(log: seq<Event>, to: State, prev: Option<State>)
    requires Sharp(log, to)
    ensures PrevIs(log, to, prev) <==> prev == LastFrom(log, to)
  {
    if exists i :: 0 <= i < |log| && Matches(log[i], to) {
      var last := LastFromIs(log, to);
      LastAnswers(log, to, last);
      forall i: nat | MayAnswer(log, to, i) ensures i == last { OnlyLast(log, to, last, i); }
    } else {
      NoMatch(log, to);
    }
  }

  lemma {:induction false} NoMatch(log: seq<Event>, to: State)
    requires forall i | 0 <= i < |log| :: !Matches(log[i], to)
    ensures LastFrom(log, to) == None
  {
    if log != [] {
      assert forall i | 0 <= i < |log| - 1 :: log[..|log| - 1][i] == log[i];
      NoMatch(log[..|log| - 1], to);
    }
  }

  /** With a tie the query may also read the earlier event: cancelled at s, overwritten by its
      stage, and cancelled again within the same second at t. */
  lemma TieReadsEither(log: seq<Event>, e: Event, f: Event)
    requires Matches(e, CancelledByUser) && Matches(f, CancelledByUser) && e.at == f.at
    requires forall j | 0 <= j < |log| :: log[j].at <= e.at
    ensures PrevIs(log + [e, f], CancelledByUser, e.payloadFrom)
    ensures PrevIs(log + [e, f], CancelledByUser, f.payloadFrom)
  {
    var all := log + [e, f];
    assert all[|log|] == e && all[|log| + 1] == f;
    assert MayAnswer(all, CancelledByUser, |log|) && MayAnswer(all, CancelledByUser, |log| + 1);
  }

  // --- the steps ------------------------------------------------------------------------

  datatype Step =
    | Dispatch
    | StageWrite(to: State)
    | FolderMove(threw: bool, landed: bool)   // stage 2's qa.move_to_ingest: how the call ended, and whether it took
    | Archive                                 // stage 5's qa.move_to_ingested
    | Settle
    | Halt(written: bool)                     // the stage threw; the worker's halt write may fail too
    | Crash
    | Sweep                                   // reset_orphaned, at boot or by the staff endpoint
    | CancelPackage(read: State)              // model.cancel reads the state, then writes
    | Return(prev: Option<State>, moveOk: bool)
    | RollbackPre(moveOk: bool)
    | RollbackAm
    | ResetPackage
    | Retry

  predicate IsStage2(entry: State) {
    entry.QaComplete? || entry.Uploading?
  }

  predicate IsStage1(entry: State) {
    entry.Pending? || entry.ProcessingMetadata?
  }

  ghost predicate Enabled(p: Package, s: Step) {
    match s
    case Dispatch => p.run.Idle? && !p.complete && IsReady(p.state)
    case StageWrite(to) =>
      && p.run.Running? && IngestGates.MayWrite(p.run.entry, to)
      && (IsStage2(p.run.entry) ==>
            && (to.Uploading? ==> p.run.leg.NotStarted?)
            && (to.UploadComplete? || to.UploadTimeout? ==> p.run.leg.Answered?)
            && (to.IngestHalted? ==> !p.run.leg.Owed?))
    case FolderMove(threw, landed) =>
      p.run.Running? && IsStage2(p.run.entry) && p.run.leg.Owed? && (landed ==> p.folder.Ready?)
    case Archive =>
      p.run.Running? && p.folder.InIngest? && (p.run.entry.MetadataProcessed? || p.run.entry.CreatingRepositoryRecord?)
    case Settle => p.run.Running? && !p.run.leg.Owed? && !p.run.leg.Threw?
    case Halt(_) => p.run.Running?
    case CancelPackage(read) => IsCancellable(read)
    case Return(prev, _) => Offers(p.state, RollbackToPackaging) && PrevIs(p.log, p.state, prev)
    case RollbackPre(_) => Offers(p.state, RollbackPreIngest)
    case RollbackAm => Offers(p.state, RollbackArchivematica)
    case ResetPackage => Offers(p.state, Action.Reset)
    case Retry => Offers(p.state, RetryAccessCopy)
    case _ => true
  }

  /** update_queue on this one row: an event only when the state changes. */
  function Write(p: Package, to: State, kind: EventKind, payloadFrom: Option<State>, at: nat): Package {
    if p.state == to then p
    else p.(state := to, log := p.log + [Event(p.id, Some(p.state), to, kind, payloadFrom, at)])
  }

  function Staff(p: Package, to: State, at: nat): Package {
    Write(p, to, StaffAction, Some(p.state), at)
  }

  /** The sweep takes this row. */
  predicate Sweeps(p: Package) {
    !p.complete && IsActivelyRunning(p.state)
  }

  function Swept(p: Package, at: nat): Package {
    if Sweeps(p) then Write(p, Pending, EventKind.OrphanReset, Some(p.state), at) else p
  }

  /** _return_row_to_packaging: is the folder move asked for? */
  predicate AsksMove(state: State, prev: Option<State>) {
    state.AmDeletionRequested? || (prev.Some? && (IsPostUploadPrior(prev.value) || IsAmPrior(prev.value)))
  }

  function MoveBack(folder: Folder, asked: bool, ok: bool): Folder {
    if asked && ok && folder.InIngest? then Ready else folder
  }

  function NextLeg(leg: Leg, to: State): Leg {
    if to.Uploading? then Owed else if leg.Threw? then Over else leg
  }

  function Apply(p: Package, s: Step, at: nat): Package
    requires Enabled(p, s)
  {
    match s
    case Dispatch => p.(run := Running(p.state, NotStarted))
    case StageWrite(to) =>
      var run := if IsStage2(p.run.entry) then Running(p.run.entry, NextLeg(p.run.leg, to)) else p.run;
      Write(p, to, StateChange, None, at).(run := run)
    case FolderMove(threw, landed) =>
      p.(run := Running(p.run.entry, if threw then Threw else Answered), folder := if landed then InIngest else p.folder)
    case Archive => p.(folder := Archived)
    case Settle => p.(run := Idle)
    case Halt(written) => (if written then Write(p, IngestHalted, StateChange, None, at) else p).(run := Idle)
    case Crash => p.(run := Idle)
    case Sweep => Swept(p, at)
    case CancelPackage(read) => Write(p, CancelledByUser, StaffAction, Some(read), at)
    case Return(prev, ok) =>
      Staff(p, ReturnedToPackaging, at).(complete := true, folder := MoveBack(p.folder, AsksMove(p.state, prev), ok))
    case RollbackPre(ok) =>
      Staff(p, RolledBackToReady, at).(complete := true, folder := MoveBack(p.folder, true, ok))
    case RollbackAm => Staff(p, AmDeletionRequested, at).(complete := true)
    case ResetPackage => Staff(p, Pending, at)
    case Retry => Staff(p, WaitingForDuracloud, at)
  }

  // --- the steps, field by field ------------------------------------------------------------

  /** The prior states after which the folder is taken to be in 002-ingest. */
  lemma AsksMoveIs(state: State, prev: Option<State>)
    ensures state.AmDeletionRequested? ==> AsksMove(state, prev)
    ensures !state.AmDeletionRequested? && prev.None? ==> !AsksMove(state, prev)
    ensures !state.AmDeletionRequested? && prev.Some? ==>
      var s := prev.value;
      AsksMove(state, prev) <==>
        || s.Uploading? || s.UploadComplete? || s.TransferStarted? || s.TransferInProgress? || s.TransferApproved?
        || s.TransferComplete? || s.IngestInProgress? || s.IngestComplete? || s.ConstructedObjectPaths?
        || s.MasterObjectDataSaved? || s.WaitingForDuracloud? || s.MetadataProcessed? || s.MetadataRecordPartsUpdated?
        || s.CreatingRepositoryRecord? || s.RepositoryRecordCreated? || s.RepositoryRecordIndexed?
  {
  }

  /** The event a write appends, if the state changes. */
  ghost predicate Appends(p: Package, p': Package, to: State, kind: EventKind, from: Option<State>, at: nat) {
    && p'.state == to
    && p'.log == if p.state == to then p.log else p.log + [Event(p.id, Some(p.state), to, kind, from, at)]
  }

  ghost predicate RowAfter(p: Package, s: Step, at: nat, p': Package) {
    match s
    case StageWrite(to) => Appends(p, p', to, StateChange, None, at) && p'.complete == p.complete
    case Halt(written) =>
      && p'.complete == p.complete
      && (if written then Appends(p, p', IngestHalted, StateChange, None, at) else p'.state == p.state && p'.log == p.log)
    case Sweep =>
      && p'.complete == p.complete
      && (if !p.complete && IsActivelyRunning(p.state) then Appends(p, p', Pending, EventKind.OrphanReset, Some(p.state), at)
          else p'.state == p.state && p'.log == p.log)
    case CancelPackage(read) => Appends(p, p', CancelledByUser, StaffAction, Some(read), at) && p'.complete == p.complete
    case Return(_, _) => Appends(p, p', ReturnedToPackaging, StaffAction, Some(p.state), at) && p'.complete
    case RollbackPre(_) => Appends(p, p', RolledBackToReady, StaffAction, Some(p.state), at) && p'.complete
    case RollbackAm => Appends(p, p', AmDeletionRequested, StaffAction, Some(p.state), at) && p'.complete
    case ResetPackage => Appends(p, p', Pending, StaffAction, Some(p.state), at) && p'.complete == p.complete
    case Retry => Appends(p, p', WaitingForDuracloud, StaffAction, Some(p.state), at) && p'.complete == p.complete
    case _ => p'.state == p.state && p'.log == p.log && p'.complete == p.complete
  }

  lemma StepOnRow(p: Package, s: Step, at: nat)
    requires Enabled(p, s)
    ensures Apply(p, s, at).id == p.id && RowAfter(p, s, at, Apply(p, s, at))
  {
  }

  /** The folder leaves 001-ready by a move that took, goes back there by one that was asked for and
      took, and is archived by stage 5; and nothing else moves it. */
  lemma StepOnFolder(p: Package, s: Step, at: nat)
    requires Enabled(p, s)
    ensures Apply(p, s, at).folder ==
      if s.FolderMove? && s.landed then InIngest
      else if s.Archive? then Archived
      else if ((s.Return? && AsksMove(p.state, s.prev)) || s.RollbackPre?) && s.moveOk && p.folder == InIngest then Ready
      else p.folder
  {
  }

  /** A dispatch goes on until its stage settles or halts, or the process dies. */
  lemma StepOnRun(p: Package, s: Step, at: nat)
    requires Enabled(p, s)
    ensures var run := Apply(p, s, at).run;
      && (s.Dispatch? ==> run == Running(p.state, NotStarted))
      && (s.Settle? || s.Halt? || s.Crash? ==> run == Idle)
      && (s.FolderMove? ==> run == Running(p.run.entry, if s.threw then Threw else Answered))
      && (s.StageWrite? ==> run.Running? && run.entry == p.run.entry)
      && (s.StageWrite? && (p.run.entry.QaComplete? || p.run.entry.Uploading?) ==>
            run.leg == if s.to.Uploading? then Owed else if p.run.leg == Threw then Over else p.run.leg)
      && (s.StageWrite? && !(p.run.entry.QaComplete? || p.run.entry.Uploading?) ==> run == p.run)
      && (!(s.Dispatch? || s.Settle? || s.Halt? || s.Crash? || s.FolderMove? || s.StageWrite?) ==> run == p.run)
  {
  }

  // --- what a row's states say about its folder -------------------------------------------

  /** States a stage writes from the Uploading write on. */
  predicate Announces(s: State) {
    || IsPostUploadPrior(s) || IsAmPrior(s) || IsAmFailure(s)
    || s.UploadTimeout? || s.ApproveTimeout? || s.TransferStatusTimeout?
  }

  /** States of a row whose upload has not begun. */
  predicate Denies(s: State) {
    IsPreUploadPrior(s) || s.AsMetadataInvalid?
  }

  /** The last state in the log that says anything, says that the folder has left 001-ready. */
  predicate Says(log: seq<Event>) {
    log != [] &&
    var s := log[|log| - 1].to;
    Announces(s) || (!Denies(s) && Says(log[..|log| - 1]))
  }

  lemma SaysSnoc(log: seq<Event>, e: Event)
    ensures Says(log + [e]) <==> Announces(e.to) || (!Denies(e.to) && Says(log))
  {
    assert (log + [e])[..|log|] == log;
  }

  lemma NeverBoth(s: State)
    ensures !(Announces(s) && Denies(s))
    ensures IsCancellable(s) ==> (Announces(s) <==> IsPostUploadPrior(s) || IsAmPrior(s))
    ensures IsCancellable(s) ==> Announces(s) || Denies(s)
  {
  }

  /** What the log holds of the row: its last event led to its state, and a cancel or an AIP
      rollback can be read back as what it was. */
  ghost predicate LogInv(p: Package) {
    && p.log != [] && p.log[|p.log| - 1].to == p.state
    && Sharp(p.log, CancelledByUser)
    && (p.state.AmDeletionRequested? ==> Says(p.log))
    && (p.state.CancelledByUser? ==>
          var from := LastFrom(p.log, CancelledByUser);
          from.Some? && IsCancellable(from.value) && (Announces(from.value) <==> Says(p.log)))
  }

  /** The row's cancels have timestamps of their own, and each is written in the state it read. */
  ghost predicate Sound(p: Package, s: Step, at: nat) {
    s.CancelPackage? ==>
      && s.read == p.state
      && forall i | 0 <= i < |p.log| && Matches(p.log[i], CancelledByUser) :: p.log[i].at < at
  }

  lemma {:induction false} LastFromSnoc(log: seq<Event>, e: Event, to: State)
    ensures LastFrom(log + [e], to) == if Matches(e, to) then e.payloadFrom else LastFrom(log, to)
  {
    assert (log + [e])[..|log|] == log;
  }

  lemma SharpSnoc(log: seq<Event>, e: Event, to: State)
    requires Sharp(log, to)
    requires Matches(e, to) ==> forall i | 0 <= i < |log| && Matches(log[i], to) :: log[i].at < e.at
    ensures Sharp(log + [e], to)
  {
    var all := log + [e];
    forall i, j | 0 <= i < j < |all| && Matches(all[i], to) && Matches(all[j], to) ensures all[i].at < all[j].at {
      assert all[i] == log[i];
      if j < |log| { assert all[j] == log[j]; }
    }
  }

  /** Writes by a stage, the worker, the sweep or staff, other than a cancel. */
  lemma WriteKeepsLog(p: Package, to: State, kind: EventKind, from: Option<State>, at: nat)
    requires LogInv(p) && !to.CancelledByUser?
    requires to.AmDeletionRequested? ==> Announces(p.state) || p.state == to
    ensures LogInv(Write(p, to, kind, from, at))
  {
    if p.state != to {
      var e := Event(p.id, Some(p.state), to, kind, from, at);
      SharpSnoc(p.log, e, CancelledByUser);
      SaysSnoc(p.log, e);
    }
  }

  lemma CancelKeepsLog(p: Package, at: nat)
    requires LogInv(p) && IsCancellable(p.state) && Sound(p, CancelPackage(p.state), at)
    ensures LogInv(Apply(p, CancelPackage(p.state), at))
  {
    var e := Event(p.id, Some(p.state), CancelledByUser, StaffAction, Some(p.state), at);
    SharpSnoc(p.log, e, CancelledByUser);
    LastFromSnoc(p.log, e, CancelledByUser);
    SaysSnoc(p.log, e);
    SaysOf(p);
  }

  lemma SaysOf(p: Package)
    requires p.log != [] && p.log[|p.log| - 1].to == p.state && IsCancellable(p.state)
    ensures Says(p.log) <==> Announces(p.state)
  {
    NeverBoth(p.state);
  }

  lemma StageNeverCancels(entry: State, to: State)
    requires IngestGates.MayWrite(entry, to)
    ensures !to.CancelledByUser? && !to.AmDeletionRequested?
  {
  }

  lemma StepKeepsLog(p: Package, s: Step, at: nat)
    requires LogInv(p) && Enabled(p, s) && Sound(p, s, at)
    ensures LogInv(Apply(p, s, at))
  {
    match s
    case StageWrite(to) =>
      StageNeverCancels(p.run.entry, to);
      WriteKeepsLog(p, to, StateChange, None, at);
    case Halt(written) => WriteKeepsLog(p, IngestHalted, StateChange, None, at);
    case Sweep => WriteKeepsLog(p, Pending, EventKind.OrphanReset, Some(p.state), at);
    case CancelPackage(read) => CancelKeepsLog(p, at);
    case Return(_, _) => WriteKeepsLog(p, ReturnedToPackaging, StaffAction, Some(p.state), at);
    case RollbackPre(_) => WriteKeepsLog(p, RolledBackToReady, StaffAction, Some(p.state), at);
    case RollbackAm => WriteKeepsLog(p, AmDeletionRequested, StaffAction, Some(p.state), at);
    case ResetPackage => WriteKeepsLog(p, Pending, StaffAction, Some(p.state), at);
    case Retry => WriteKeepsLog(p, WaitingForDuracloud, StaffAction, Some(p.state), at);
    case _ =>
  }

  /** Return to Packaging asks for the move exactly when the log says so. */
  lemma ReturnReadsLog(p: Package, s: Step)
    requires LogInv(p) && s.Return? && Enabled(p, s)
    ensures AsksMove(p.state, s.prev) <==> Says(p.log)
  {
    if p.state.CancelledByUser? {
      SharpAnswer(p.log, CancelledByUser, s.prev);
      NeverBoth(LastFrom(p.log, CancelledByUser).value);
    }
  }

  // --- runs --------------------------------------------------------------------------------

  /** queue_packages' row: Pending, with its creation event, its folder in 001-ready. */
  function Fresh(id: Id, at: nat): Package {
    Package(id, Pending, false, [Event(id, None, Pending, StateChange, None, at)], Ready, Idle)
  }

  ghost predicate IsRun(ps: seq<Package>, steps: seq<Step>, clock: seq<nat>) {
    && |ps| == |steps| + 1 && |clock| == |steps|
    && (exists id, at :: ps[0] == Fresh(id, at))
    && forall k | 0 <= k < |steps| :: Enabled(ps[k], steps[k]) && ps[k + 1] == Apply(ps[k], steps[k], clock[k])
  }

  ghost predicate SoundRun(ps: seq<Package>, steps: seq<Step>, clock: seq<nat>)
    requires IsRun(ps, steps, clock)
  {
    forall k | 0 <= k < |steps| :: Sound(ps[k], steps[k], clock[k])
  }

  /** The history of the row: a step in which a stage, or a retry, writes an announcing state... */
  predicate Declares(s: Step) {
    (s.StageWrite? && Announces(s.to)) || s.Retry?
  }

  /** ... and a step that takes the row back to before its upload. */
  predicate Wipes(p: Package, s: Step) {
    (s.StageWrite? && Denies(s.to)) || s.ResetPackage? || (s.Sweep? && Sweeps(p))
  }

  /** The upload was announced, and nothing has taken the row back since. */
  ghost predicate Declared(ps: seq<Package>, steps: seq<Step>, k: nat)
    requires k <= |steps| && |steps| < |ps|
  {
    exists j :: 0 <= j < k && Declares(steps[j]) && forall m | j < m < k :: !Wipes(ps[m], steps[m])
  }

  /** The history of the folder: a move by stage 2 that took... */
  predicate Lands(s: Step) {
    s.FolderMove? && s.landed
  }

  /** ... and a move back that took. */
  predicate BringsBack(p: Package, s: Step) {
    && p.folder.InIngest?
    && ((s.Return? && s.moveOk && AsksMove(p.state, s.prev)) || (s.RollbackPre? && s.moveOk))
  }

  /** A move of stage 2 has landed, and none has brought the folder back since. */
  ghost predicate Landed(ps: seq<Package>, steps: seq<Step>, k: nat)
    requires k <= |steps| && |steps| < |ps|
  {
    exists j :: 0 <= j < k && Lands(steps[j]) && forall m | j < m < k :: !BringsBack(ps[m], steps[m])
  }

  lemma {:induction false} LogHolds(ps: seq<Package>, steps: seq<Step>, clock: seq<nat>, k: nat)
    requires IsRun(ps, steps, clock) && SoundRun(ps, steps, clock) && k < |ps|
    ensures LogInv(ps[k])
  {
    if k > 0 {
      LogHolds(ps, steps, clock, k - 1);
      StepKeepsLog(ps[k - 1], steps[k - 1], clock[k - 1]);
    }
  }

  lemma SaysWrite(p: Package, to: State, kind: EventKind, from: Option<State>, at: nat)
    requires p.log != [] && p.log[|p.log| - 1].to == p.state
    ensures Says(Write(p, to, kind, from, at).log) <==> Announces(to) || (!Denies(to) && Says(p.log))
  {
    SaysSnoc(p.log, Event(p.id, Some(p.state), to, kind, from, at));
    NeverBoth(to);
  }

  /** The state a step writes to the row, if it writes one. */
  function Writes(p: Package, s: Step): Option<State> {
    match s
    case StageWrite(to) => Some(to)
    case Halt(written) => if written then Some(IngestHalted) else None
    case Sweep => if Sweeps(p) then Some(Pending) else None
    case CancelPackage(_) => Some(CancelledByUser)
    case Return(_, _) => Some(ReturnedToPackaging)
    case RollbackPre(_) => Some(RolledBackToReady)
    case RollbackAm => Some(AmDeletionRequested)
    case ResetPackage => Some(Pending)
    case Retry => Some(WaitingForDuracloud)
    case _ => None
  }

  lemma StepIsWrite(p: Package, s: Step, at: nat) returns (kind: EventKind, from: Option<State>)
    requires Enabled(p, s)
    ensures Apply(p, s, at).log == if Writes(p, s).None? then p.log else Write(p, Writes(p, s).value, kind, from, at).log
    ensures Apply(p, s, at).state == Or(Writes(p, s), p.state)
  {
    kind := if s.StageWrite? || s.Halt? then StateChange else if s.Sweep? then EventKind.OrphanReset else StaffAction;
    from := if s.StageWrite? || s.Halt? then None else if s.CancelPackage? then Some(s.read) else Some(p.state);
  }

  lemma WritesAre(p: Package, s: Step)
    ensures var to := Writes(p, s);
      && (Declares(s) <==> to.Some? && Announces(to.value))
      && (Wipes(p, s) <==> to.Some? && Denies(to.value))
  {
  }

  /** What one step does to what the log says. */
  lemma SaysAfter(p: Package, s: Step, at: nat)
    requires Enabled(p, s) && p.log != [] && p.log[|p.log| - 1].to == p.state
    ensures Says(Apply(p, s, at).log) <==> Declares(s) || (!Wipes(p, s) && Says(p.log))
  {
    var kind, from := StepIsWrite(p, s, at);
    WritesAre(p, s);
    if Writes(p, s).Some? { SaysWrite(p, Writes(p, s).value, kind, from, at); }
  }

  lemma DeclaredStep(ps: seq<Package>, steps: seq<Step>, k: nat)
    requires 0 < k <= |steps| < |ps|
    ensures Declared(ps, steps, k) <==>
            Declares(steps[k - 1]) || (!Wipes(ps[k - 1], steps[k - 1]) && Declared(ps, steps, k - 1))
  {
    if Declared(ps, steps, k - 1) && !Wipes(ps[k - 1], steps[k - 1]) {
      var j :| 0 <= j < k - 1 && Declares(steps[j]) && forall m | j < m < k - 1 :: !Wipes(ps[m], steps[m]);
      assert forall m | j < m < k :: !Wipes(ps[m], steps[m]);
    }
  }

  lemma LandedStep(ps: seq<Package>, steps: seq<Step>, k: nat)
    requires 0 < k <= |steps| < |ps|
    ensures Landed(ps, steps, k) <==>
            Lands(steps[k - 1]) || (!BringsBack(ps[k - 1], steps[k - 1]) && Landed(ps, steps, k - 1))
  {
    if Landed(ps, steps, k - 1) && !BringsBack(ps[k - 1], steps[k - 1]) {
      var j :| 0 <= j < k - 1 && Lands(steps[j]) && forall m | j < m < k - 1 :: !BringsBack(ps[m], steps[m]);
      assert forall m | j < m < k :: !BringsBack(ps[m], steps[m]);
    }
  }

  /** The log says what the history is: announced, and not taken back. */
  lemma {:induction false} SaysIffDeclared(ps: seq<Package>, steps: seq<Step>, clock: seq<nat>, k: nat)
    requires IsRun(ps, steps, clock) && SoundRun(ps, steps, clock) && k < |ps|
    ensures Says(ps[k].log) <==> Declared(ps, steps, k)
  {
    if k > 0 {
      SaysIffDeclared(ps, steps, clock, k - 1);
      LogHolds(ps, steps, clock, k - 1);
      SaysAfter(ps[k - 1], steps[k - 1], clock[k - 1]);
      DeclaredStep(ps, steps, k);
    }
  }

  lemma FolderAfter(p: Package, s: Step, at: nat)
    requires Enabled(p, s)
    ensures Apply(p, s, at).folder != Ready <==> Lands(s) || (p.folder != Ready && !BringsBack(p, s))
  {
  }

  /** The folder has left 001-ready exactly when a move has landed and none has brought it back. */
  lemma {:induction false} LeftIffLanded(ps: seq<Package>, steps: seq<Step>, clock: seq<nat>, k: nat)
    requires IsRun(ps, steps, clock) && k < |ps|
    ensures ps[k].folder != Ready <==> Landed(ps, steps, k)
  {
    if k > 0 {
      LeftIffLanded(ps, steps, clock, k - 1);
      FolderAfter(ps[k - 1], steps[k - 1], clock[k - 1]);
      LandedStep(ps, steps, k);
    }
  }

  /** FOLDER RECOVERY. On every run whose cancels are sound, whatever crashes, fails, is swept or
      is still running: Return to Packaging asks for the move exactly when the upload was
      announced and not taken back, and the folder has left 001-ready exactly when a move landed
      and none brought it back. So it asks when it should exactly when the two histories agree;
      and an answered move leaves the folder in 001-ready exactly when no landed move has been
      taken back from the log. */
  lemma ReturnAsksExactlyIff(ps: seq<Package>, steps: seq<Step>, clock: seq<nat>, k: nat)
    requires IsRun(ps, steps, clock) && SoundRun(ps, steps, clock) && k < |steps| && steps[k].Return?
    ensures var asked, left := AsksMove(ps[k].state, steps[k].prev), ps[k].folder != Ready;
      && ((asked <==> left) <==> (Declared(ps, steps, k) <==> Landed(ps, steps, k)))
      && (asked && !left <==> Declared(ps, steps, k) && !Landed(ps, steps, k))
      && (left && !asked <==> Landed(ps, steps, k) && !Declared(ps, steps, k))
      && (steps[k].moveOk && ps[k].folder != Archived ==>
            (ps[k + 1].folder == Ready <==> (Landed(ps, steps, k) ==> Declared(ps, steps, k))))
  {
    LogHolds(ps, steps, clock, k);
    ReturnReadsLog(ps[k], steps[k]);
    SaysIffDeclared(ps, steps, clock, k);
    LeftIffLanded(ps, steps, clock, k);
  }

  // --- what hides a moved folder -----------------------------------------------------------

  predicate MovePending(p: Package) {
    p.run.Running? && IsStage2(p.run.entry) && p.run.leg.Owed?
  }

  /** No sweep takes a row whose folder is away or whose move is owed. */
  predicate Spared(p: Package, s: Step) {
    s.Sweep? && Sweeps(p) ==> p.folder == Ready && !MovePending(p)
  }

  lemma RunWrites(entry: State, to: State)
    requires IsReady(entry) && IngestGates.MayWrite(entry, to)
    ensures IsStage1(entry) ==> !Announces(to)
    ensures IsStage2(entry) ==> !Denies(to) && (Announces(to) <==> !to.IngestHalted?)
    ensures IsLater(entry) ==> !Denies(to)
    ensures IsStage6(entry) ==> !Denies(to) && !Announces(to)
    ensures !to.ReturnedToPackaging? && !to.RolledBackToReady? && !to.AmDeletionRequested?
  {
  }

  predicate IsLater(entry: State) {
    !IsStage1(entry) && !IsStage2(entry) && !IsStage6(entry)
  }

  ghost predicate LogEnds(p: Package) {
    p.log != [] && p.log[|p.log| - 1].to == p.state
  }

  /** The log says of every folder that is away, or about to be, that it has left. */
  ghost predicate Told(p: Package) {
    && LogEnds(p)
    && (p.folder != Ready || MovePending(p) ==> Says(p.log))
    && (p.run.Running? ==> IsReady(p.run.entry) && (IsStage1(p.run.entry) ==> p.folder == Ready))
  }

  /** The steps of a run that write nothing to the row. */
  predicate IsRunStep(s: Step) {
    s.Dispatch? || s.FolderMove? || s.Archive? || s.Settle? || s.Crash?
  }

  lemma StageWriteKeepsTold(p: Package, s: Step, at: nat)
    requires Told(p) && Enabled(p, s) && s.StageWrite?
    ensures Told(Apply(p, s, at))
  {
    RunWrites(p.run.entry, s.to);
    SaysWrite(p, s.to, StateChange, None, at);
  }

  lemma RunStepKeepsTold(p: Package, s: Step, at: nat)
    requires Told(p) && Enabled(p, s) && IsRunStep(s)
    ensures Told(Apply(p, s, at))
  {
  }

  lemma HaltKeepsTold(p: Package, s: Step, at: nat)
    requires Told(p) && Enabled(p, s) && s.Halt?
    ensures Told(Apply(p, s, at))
  {
    SaysWrite(p, IngestHalted, StateChange, None, at);
  }

  predicate IsStaffStep(s: Step) {
    !IsRunStep(s) && !s.StageWrite? && !s.Halt?
  }

  lemma EndsAfter(p: Package, s: Step, at: nat)
    requires LogEnds(p) && Enabled(p, s)
    ensures LogEnds(Apply(p, s, at))
  {
    var kind, from := StepIsWrite(p, s, at);
  }

  /** Only a return or a rollback to ready touches the folder, and no staff step the run. */
  lemma StaffLeaves(p: Package, s: Step, at: nat)
    requires Enabled(p, s) && IsStaffStep(s)
    ensures var p' := Apply(p, s, at);
      && p'.run == p.run
      && (s.Return? || s.RollbackPre? || p'.folder == p.folder)
      && (p'.folder == p.folder || p'.folder == Ready)
  {
  }

  /** A staff step takes the row back only from before its upload, or by a sweep. */
  lemma StaffWipes(p: Package, s: Step)
    requires LogEnds(p) && Enabled(p, s) && IsStaffStep(s) && Wipes(p, s)
    ensures !Says(p.log) || (s.Sweep? && Sweeps(p))
  {
  }

  lemma StaffKeepsTold(p: Package, s: Step, at: nat)
    requires Told(p) && Enabled(p, s) && Spared(p, s) && IsStaffStep(s)
    ensures Told(Apply(p, s, at))
  {
    EndsAfter(p, s, at);
    StaffLeaves(p, s, at);
    SaysAfter(p, s, at);
    if Wipes(p, s) { StaffWipes(p, s); }
  }

  lemma StepKeepsTold(p: Package, s: Step, at: nat)
    requires Told(p) && Enabled(p, s) && Spared(p, s)
    ensures Told(Apply(p, s, at))
  {
    if s.StageWrite? {
      StageWriteKeepsTold(p, s, at);
    } else if IsRunStep(s) {
      RunStepKeepsTold(p, s, at);
    } else if s.Halt? {
      HaltKeepsTold(p, s, at);
    } else {
      StaffKeepsTold(p, s, at);
    }
  }

  lemma {:induction false} ToldHolds(ps: seq<Package>, steps: seq<Step>, clock: seq<nat>, k: nat)
    requires IsRun(ps, steps, clock) && k < |ps|
    requires forall i | 0 <= i < k :: Spared(ps[i], steps[i])
    ensures Told(ps[k])
  {
    if k > 0 {
      ToldHolds(ps, steps, clock, k - 1);
      StepKeepsTold(ps[k - 1], steps[k - 1], clock[k - 1]);
    }
  }

  /** NO FOLDER IS FORGOTTEN. On every sound run up to a return, with moves missed or late, stages
      still running, halts unwritten and crashes anywhere: unless a sweep has taken the row with its
      folder away or its move owed, the return asks for every folder that has left 001-ready, and a
      successful answer leaves the folder there. */
  lemma SparedReturnAsks(ps: seq<Package>, steps: seq<Step>, clock: seq<nat>, k: nat)
    requires IsRun(ps, steps, clock) && SoundRun(ps, steps, clock) && k < |steps| && steps[k].Return?
    requires forall i | 0 <= i < k :: Spared(ps[i], steps[i])
    ensures ps[k].folder != Ready ==> AsksMove(ps[k].state, steps[k].prev)
    ensures steps[k].moveOk && ps[k].folder != Archived ==> ps[k + 1].folder == Ready
  {
    ToldHolds(ps, steps, clock, k);
    LogHolds(ps, steps, clock, k);
    ReturnReadsLog(ps[k], steps[k]);
  }

  // --- what makes it ask in vain -------------------------------------------------------------

  /** Stage 2's move lands, unless it has already; neither a crash nor a halt comes between its
      Uploading write and its move; and a row is returned only when its stage has settled. */
  predicate Landing(p: Package, s: Step) {
    && (s.FolderMove? ==> s.landed || p.folder != Ready)
    && (MovePending(p) ==> !s.Crash? && !s.Halt?)
    && (s.Return? || s.RollbackPre? ==> p.run.Idle?)
  }

  predicate Returned(p: Package) {
    p.state.ReturnedToPackaging? || p.state.RolledBackToReady?
  }

  /** What a running stage knows of the folder. */
  ghost predicate RunTrue(p: Package) {
    p.run.Running? ==>
      && IsReady(p.run.entry)
      && (IsLater(p.run.entry) ==> p.folder != Ready)
      && (if IsStage2(p.run.entry) then p.run.leg.NotStarted? || p.run.leg.Owed? || p.folder != Ready
          else p.run.leg.NotStarted?)
  }

  /** What the log says of the folder is so, unless the move is still owed. */
  ghost predicate True(p: Package) {
    && LogEnds(p)
    && (Says(p.log) && !MovePending(p) && !Returned(p) ==> p.folder != Ready)
    && (Returned(p) ==> p.complete && p.run.Idle?)
    && RunTrue(p)
  }

  lemma StageWriteKeepsTrue(p: Package, s: Step, at: nat)
    requires True(p) && Enabled(p, s) && s.StageWrite?
    ensures True(Apply(p, s, at))
  {
    RunWrites(p.run.entry, s.to);
    SaysWrite(p, s.to, StateChange, None, at);
  }

  lemma RunStepKeepsTrue(p: Package, s: Step, at: nat)
    requires True(p) && Enabled(p, s) && Landing(p, s) && IsRunStep(s)
    ensures True(Apply(p, s, at))
  {
  }

  lemma HaltKeepsTrue(p: Package, s: Step, at: nat)
    requires True(p) && Enabled(p, s) && Landing(p, s) && s.Halt?
    ensures True(Apply(p, s, at))
  {
    SaysWrite(p, IngestHalted, StateChange, None, at);
  }

  lemma CloseKeepsTrue(p: Package, s: Step, at: nat)
    requires True(p) && Enabled(p, s) && Landing(p, s) && (s.Return? || s.RollbackPre?)
    ensures True(Apply(p, s, at))
  {
  }

  /** A retry is for a row whose log says so already. */
  lemma StaffDeclares(p: Package, s: Step)
    requires LogEnds(p) && Enabled(p, s) && IsStaffStep(s) && Declares(s)
    ensures Says(p.log)
  {
  }

  /** The other staff steps neither close a row nor touch a returned one. */
  lemma StaffSpares(p: Package, s: Step, at: nat)
    requires Enabled(p, s) && Sound(p, s, at) && IsStaffStep(s) && !s.Return? && !s.RollbackPre?
    ensures Returned(p) || Returned(Apply(p, s, at)) ==> Apply(p, s, at) == p
  {
  }

  lemma StaffKeepsTrue(p: Package, s: Step, at: nat)
    requires True(p) && Enabled(p, s) && Sound(p, s, at) && IsStaffStep(s) && !s.Return? && !s.RollbackPre?
    ensures True(Apply(p, s, at))
  {
    EndsAfter(p, s, at);
    StaffLeaves(p, s, at);
    SaysAfter(p, s, at);
    StaffSpares(p, s, at);
    if Declares(s) { StaffDeclares(p, s); }
  }

  lemma StepKeepsTrue(p: Package, s: Step, at: nat)
    requires True(p) && Enabled(p, s) && Sound(p, s, at) && Landing(p, s)
    ensures True(Apply(p, s, at))
  {
    if s.StageWrite? {
      StageWriteKeepsTrue(p, s, at);
    } else if IsRunStep(s) {
      RunStepKeepsTrue(p, s, at);
    } else if s.Halt? {
      HaltKeepsTrue(p, s, at);
    } else if s.Return? || s.RollbackPre? {
      CloseKeepsTrue(p, s, at);
    } else {
      StaffKeepsTrue(p, s, at);
    }
  }

  lemma {:induction false} TrueHolds(ps: seq<Package>, steps: seq<Step>, clock: seq<nat>, k: nat)
    requires IsRun(ps, steps, clock) && SoundRun(ps, steps, clock) && k < |ps|
    requires forall i | 0 <= i < k :: Landing(ps[i], steps[i])
    ensures True(ps[k])
  {
    if k > 0 {
      TrueHolds(ps, steps, clock, k - 1);
      StepKeepsTrue(ps[k - 1], steps[k - 1], clock[k - 1]);
    }
  }

  /** NO FOLDER IS ASKED FOR IN VAIN on runs where stage 2's moves land and rows are returned only
      once their stage has settled, whatever is cancelled or swept in between. */
  lemma LandingReturnFinds(ps: seq<Package>, steps: seq<Step>, clock: seq<nat>, k: nat)
    requires IsRun(ps, steps, clock) && SoundRun(ps, steps, clock) && k < |steps| && steps[k].Return?
    requires forall i | 0 <= i <= k :: Landing(ps[i], steps[i])
    ensures AsksMove(ps[k].state, steps[k].prev) ==> ps[k].folder != Ready
  {
    TrueHolds(ps, steps, clock, k);
    LogHolds(ps, steps, clock, k);
    ReturnReadsLog(ps[k], steps[k]);
  }

  predicate Prompt(p: Package, s: Step) {
    Spared(p, s) && Landing(p, s)
  }

  /** On a prompt run the histories agree: Return to Packaging asks for the move exactly when the
      folder has left 001-ready, and an answered move leaves it there. Staff may cancel the row at
      any moment, also between the Uploading write and the move. */
  lemma PromptReturnAsks(ps: seq<Package>, steps: seq<Step>, clock: seq<nat>, k: nat)
    requires IsRun(ps, steps, clock) && SoundRun(ps, steps, clock) && k < |steps| && steps[k].Return?
    requires forall i | 0 <= i <= k :: Prompt(ps[i], steps[i])
    ensures AsksMove(ps[k].state, steps[k].prev) <==> ps[k].folder != Ready
    ensures steps[k].moveOk && ps[k].folder != Archived ==> ps[k + 1].folder == Ready
  {
    SparedReturnAsks(ps, steps, clock, k);
    LandingReturnFinds(ps, steps, clock, k);
  }

  // --- the inputs for which they do not -----------------------------------------------------------

  /** A row whose last dispatch was for stage 2, up to its Uploading write. */
  ghost predicate OwesMove(p: Package) {
    LogInv(p) && !p.complete && p.state.Uploading? && p.folder == Ready && MovePending(p)
  }

  ghost predicate NoCancelYet(p: Package) {
    forall i | 0 <= i < |p.log| :: !Matches(p.log[i], CancelledByUser)
  }

  /** Cancelling a row and reading the cancel back. */
  lemma CancelReadsBack(p: Package, prev: Option<State>, at: nat)
    requires LogInv(p) && NoCancelYet(p) && IsCancellable(p.state)
    ensures var p1 := Apply(p, CancelPackage(p.state), at);
      p1.state.CancelledByUser? && (PrevIs(p1.log, CancelledByUser, prev) <==> prev == Some(p.state))
  {
    var e := Event(p.id, Some(p.state), CancelledByUser, StaffAction, Some(p.state), at);
    SharpSnoc(p.log, e, CancelledByUser);
    LastFromSnoc(p.log, e, CancelledByUser);
    SharpAnswer(p.log + [e], CancelledByUser, prev);
  }

  /** Three ways for stage 2's move not to land: QA answers the call with an error, which stage 2
      does not look at; the process dies before the call; or the call throws and the worker's halt
      is not written. */
  datatype Miss = AnsweredWithError | Died | ThrewUnhalted

  function Missed(p: Package, m: Miss): Package
    requires MovePending(p)
  {
    match m
    case AnsweredWithError => Apply(Apply(p, FolderMove(false, false), 0), Settle, 0)
    case Died => Apply(p, Crash, 0)
    case ThrewUnhalted => Apply(Apply(p, FolderMove(true, false), 0), Halt(false), 0)
  }

  /** The row then stays at Uploading with its folder in 001-ready; cancelled and returned, it asks
      for a move that is not there. */
  lemma MissedMoveIsAskedFor(p: Package, m: Miss, prev: Option<State>, at: nat)
    requires OwesMove(p) && NoCancelYet(p)
    ensures var q := Missed(p, m); var p1 := Apply(q, CancelPackage(Uploading), at);
      && q.folder == Ready && q.run.Idle? && Enabled(q, CancelPackage(Uploading)) && Sound(q, CancelPackage(Uploading), at)
      && (PrevIs(p1.log, CancelledByUser, prev) ==>
            Enabled(p1, Return(prev, true)) && AsksMove(p1.state, prev) && p1.folder == Ready)
  {
    CancelReadsBack(Missed(p, m), prev, at);
    assert Offers(CancelledByUser, RollbackToPackaging);
  }

  /** Returned while stage 2 still owes its move, it asks too early, and the move that follows
      strands the folder in 002-ingest under a closed row. */
  lemma EarlyReturnStrands(p: Package, prev: Option<State>, at: nat)
    requires OwesMove(p) && NoCancelYet(p)
    ensures var p1 := Apply(p, CancelPackage(Uploading), at);
      PrevIs(p1.log, CancelledByUser, prev) ==>
        && Enabled(p1, Return(prev, true)) && AsksMove(p1.state, prev)
        && Stranded(Apply(p1, Return(prev, true), at))
  {
    CancelReadsBack(p, prev, at);
    assert Offers(CancelledByUser, RollbackToPackaging);
  }

  /** The row is closed and its stage's move is still to come. */
  ghost predicate Stranded(p: Package) {
    && p.complete && p.state.ReturnedToPackaging? && p.folder == Ready
    && Enabled(p, FolderMove(false, true))
    && var after := Apply(p, FolderMove(false, true), 0);
    && after.folder == InIngest && after.complete && after.state.ReturnedToPackaging?
  }

  /** An orphan reset hides the move: cancelled right after it, the package's folder is left
      where stage 2 put it, and Return to Packaging does not ask for it. */
  lemma SweepHidesMove(p: Package, prev: Option<State>, moveOk: bool, at: nat)
    requires LogInv(p) && NoCancelYet(p) && Sweeps(p) && p.folder == InIngest
    ensures var q := Swept(p, at); var p1 := Apply(q, CancelPackage(Pending), at);
      && Enabled(q, CancelPackage(Pending)) && Sound(q, CancelPackage(Pending), at)
      && (PrevIs(p1.log, CancelledByUser, prev) ==>
            && Enabled(p1, Return(prev, moveOk)) && !AsksMove(p1.state, prev)
            && Apply(p1, Return(prev, moveOk), at).folder == InIngest)
  {
    WriteKeepsLog(p, Pending, EventKind.OrphanReset, Some(p.state), at);
    CancelReadsBack(Swept(p, at), prev, at);
    assert Offers(CancelledByUser, RollbackToPackaging);
  }

  ghost function SweptThenMoved(p: Package, at: nat): Package
    requires OwesMove(p)
  {
    Apply(Swept(p, at), FolderMove(false, true), at)
  }

  lemma SweptThenMovedIs(p: Package, at: nat)
    requires OwesMove(p) && NoCancelYet(p)
    ensures var q := SweptThenMoved(p, at);
      !Spared(p, Sweep) && LogInv(q) && NoCancelYet(q) && q.state == Pending && q.folder == InIngest
  {
    WriteKeepsLog(p, Pending, EventKind.OrphanReset, Some(p.state), at);
  }

  /** A sweep while the move is owed hides it as well: the move lands afterwards. */
  lemma SweepHidesOwedMove(p: Package, prev: Option<State>, moveOk: bool, at: nat)
    requires OwesMove(p) && NoCancelYet(p)
    ensures var q := SweptThenMoved(p, at);
      var p1 := Apply(q, CancelPackage(Pending), at);
      && !Spared(p, Sweep) && Enabled(q, CancelPackage(Pending)) && Sound(q, CancelPackage(Pending), at)
      && (PrevIs(p1.log, CancelledByUser, prev) ==>
            && Enabled(p1, Return(prev, moveOk)) && !AsksMove(p1.state, prev)
            && Apply(p1, Return(prev, moveOk), at).folder == InIngest)
  {
    SweptThenMovedIs(p, at);
    CancelReadsBack(SweptThenMoved(p, at), prev, at);
    assert Offers(CancelledByUser, RollbackToPackaging);
  }

  /** A cancel that read the row before its stage's Uploading write, and wrote after it, is read
      back as a cancel from before the upload. */
  lemma StaleCancelHidesMove(p: Package, prev: Option<State>, at: nat)
    requires LogInv(p) && NoCancelYet(p) && p.state.Uploading?
    ensures var p1 := Apply(p, CancelPackage(QaComplete), at);
      && Enabled(p, CancelPackage(QaComplete)) && !Sound(p, CancelPackage(QaComplete), at)
      && (PrevIs(p1.log, CancelledByUser, prev) ==> !AsksMove(p1.state, prev))
  {
    var e := Event(p.id, Some(p.state), CancelledByUser, StaffAction, Some(QaComplete), at);
    SharpSnoc(p.log, e, CancelledByUser);
    LastFromSnoc(p.log, e, CancelledByUser);
    SharpAnswer(p.log + [e], CancelledByUser, prev);
  }

  // --- the same log as the queue model's --------------------------------------------------------

  /** The events of one row. */
  function RowLog(events: seq<Event>, id: Id): seq<Event> {
    if events == [] then []
    else
      var rest := RowLog(events[..|events| - 1], id);
      if events[|events| - 1].queueId == id then rest + [events[|events| - 1]] else rest
  }

  lemma RowLogSnoc(events: seq<Event>, e: Event, id: Id)
    ensures RowLog(events + [e], id) == if e.queueId == id then RowLog(events, id) + [e] else RowLog(events, id)
  {
    assert (events + [e])[..|events|] == events;
  }

  lemma OneTransition(rows: map<Id, QRow>, id: Id, u: Update, o: Options, at: nat)
    requires id in rows && u.State().Some?
    ensures TransitionEvents(rows, [id], u, o, at) ==
            if rows[id].pipelineState == u.State().value then []
            else [Event(id, Some(rows[id].pipelineState), u.State().value, o.kind, o.payloadFrom, at)]
  {
    assert [id][1..] == [] && TransitionEvents(rows, [], u, o, at) == [];
  }

  /** Write is update_queue on one row, seen through the row's part of the log. */
  lemma WriteIsUpdate(q: Queue, p: Package, u: Update, o: Options, at: nat)
    requires p.id in q.rows && q.rows[p.id].pipelineState == p.state && RowLog(q.events, p.id) == p.log
    requires u.State().Some?
    ensures var q' := Updated(q, [p.id], u, o, at);
            var p' := Write(p, u.State().value, o.kind, o.payloadFrom, at);
      q'.rows[p.id].pipelineState == p'.state && RowLog(q'.events, p.id) == p'.log
  {
    OneTransition(q.rows, p.id, u, o, at);
    assert p.id in [p.id];
    var to := u.State().value;
    if p.state == to {
      assert q.events + [] == q.events;
    } else {
      RowLogSnoc(q.events, Event(p.id, Some(p.state), to, o.kind, o.payloadFrom, at), p.id);
    }
  }
}
