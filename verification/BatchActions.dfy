/** The two batch-wide staff actions, halt and return, over the open rows of one batch. */
module BatchActions {
  import opened Basics
  import opened PipelineStates
  import opened IngestQueue

  datatype RollbackSummary = RollbackSummary(
    totalOpen: nat, rolledBack: nat, skippedAmSide: nat, skippedInFlight: nat, skippedOther: nat)

  datatype CancelSummary = CancelSummary(totalOpen: nat, cancelled: nat, alreadyHalted: nat, skippedOther: nat)

  /** What returning the batch does to one open row. */
  function Returned(r: QRow): QRow {
    if Offers(r.pipelineState, RollbackPreIngest)
    then r.(status := RolledBackToReady, pipelineState := RolledBackToReady, complete := true)
    else if Offers(r.pipelineState, RollbackToPackaging)
    then r.(status := ReturnedToPackaging, pipelineState := ReturnedToPackaging, complete := true)
    else r
  }

  /** What halting the batch does to one open row. */
  function Halted(r: QRow): QRow {
    if IsCancellable(r.pipelineState) then r.(status := CancelledByUser, pipelineState := CancelledByUser) else r
  }

  /** The table with the listed rows halted. */
  function AllHalted(rows: map<Id, QRow>, listed: seq<Id>): map<Id, QRow> {
    map id | id in rows :: if id in listed then Halted(rows[id]) else rows[id]
  }

  /** The table with the listed rows returned. */
  function AllReturned(rows: map<Id, QRow>, listed: seq<Id>): map<Id, QRow> {
    map id | id in rows :: if id in listed then Returned(rows[id]) else rows[id]
  }

  /** What list_queue returns for the batch, at most 1000 rows of it. */
  ghost predicate Lists(rows: map<Id, QRow>, batch: string, listed: seq<Id>) {
    && Distinct(listed) && |listed| <= 1000
    && (forall id | id in listed :: id in rows && rows[id].batch == batch && !rows[id].complete)
    && (|listed| == 1000 || forall id | id in rows && rows[id].batch == batch && !rows[id].complete :: id in listed)
  }

  /** One update_queue by staff on one row. */
  method Flip(q: QueueModel, id: Id, to: State, close: bool, at: nat)
    requires id in q.rows && Synced(q.Q())
    modifies q
    ensures Synced(q.Q())
    ensures q.rows == old(q.rows)[id := old(q.rows)[id].(status := to, pipelineState := to,
                                                         complete := close || old(q.rows)[id].complete)]
    ensures q.events == old(q.events) +
      if old(q.rows)[id].pipelineState == to then []
      else [Event(id, Some(old(q.rows)[id].pipelineState), to, StaffAction, Some(old(q.rows)[id].pipelineState), at)]
  {
    var u := Update(Some(to), Option.None, if close then Some(true) else Option.None);
    var o := Options(StaffAction, Some(q.rows[id].pipelineState));
    UpdateSyncedIff(q.Q(), [id], u, o, at);
    assert TransitionEvents(q.rows, [id][1..], u, o, at) == [];
    var n := q.UpdateQueue([id], u, o, at);
    assert id in [id];
  }

  lemma HaltedStep(was: map<Id, QRow>, listed: seq<Id>, i: nat)
    requires i < |listed| && Distinct(listed) && listed[i] in was
    ensures var id, soFar := listed[i], AllHalted(was, listed[..i]);
      soFar[id] == was[id] && AllHalted(was, listed[..i + 1]) == soFar[id := Halted(was[id])]
  {
    assert listed[..i + 1] == listed[..i] + [listed[i]];
    assert listed[i] !in listed[..i];
  }

  lemma ReturnedStep(was: map<Id, QRow>, listed: seq<Id>, i: nat)
    requires i < |listed| && Distinct(listed) && listed[i] in was
    ensures var id, soFar := listed[i], AllReturned(was, listed[..i]);
      soFar[id] == was[id] && AllReturned(was, listed[..i + 1]) == soFar[id := Returned(was[id])]
  {
    assert listed[..i + 1] == listed[..i] + [listed[i]];
    assert listed[i] !in listed[..i];
  }

  /** How many of the listed rows are in a state of the class. */
  function Tally(rows: map<Id, QRow>, listed: seq<Id>, class_: State -> bool): nat {
    if listed == [] then 0
    else
      var id := listed[|listed| - 1];
      Tally(rows, listed[..|listed| - 1], class_) + if id in rows && class_(rows[id].pipelineState) then 1 else 0
  }

  predicate IsHalted(s: State) {
    && !IsCancellable(s)
    && (Offers(s, RollbackToPackaging) || Offers(s, RollbackArchivematica)
        || Offers(s, RollbackPreIngest) || Offers(s, Action.Reset))
  }

  predicate IsReturnable(s: State) {
    Offers(s, RollbackPreIngest) || Offers(s, RollbackToPackaging)
  }

  predicate IsAmSide(s: State) {
    !IsReturnable(s) && Offers(s, RollbackArchivematica)
  }

  predicate IsInFlight(s: State) {
    !IsReturnable(s) && !IsAmSide(s) && Offers(s, Action.Cancel)
  }

  /** The classes, state by state. */
  lemma HaltClasses(s: State)
    ensures IsCancellable(s) <==>
      || s.Pending? || s.Starting? || s.ProcessingMetadata? || s.QaComplete? || s.Uploading? || s.UploadComplete?
      || s.TransferStarted? || s.TransferInProgress? || s.TransferApproved? || s.TransferComplete?
      || s.IngestInProgress? || s.IngestComplete? || s.ConstructedObjectPaths? || s.MasterObjectDataSaved?
      || s.WaitingForDuracloud? || s.MetadataProcessed? || s.MetadataRecordPartsUpdated? || s.CreatingRepositoryRecord?
      || s.RepositoryRecordCreated? || s.RepositoryRecordIndexed?
    ensures IsHalted(s) <==>
      || s.CancelledByUser? || s.AmDeletionRequested? || s.IngestHalted? || s.UploadTimeout? || s.ApproveTimeout?
      || s.TransferStatusTimeout? || s.IngestStatusTimeout? || s.Failed? || s.AsMetadataDrift? || s.DuracloudTimeout?
      || s.AsMetadataInvalid?
  {
  }

  lemma ReturnClasses(s: State)
    ensures IsReturnable(s) <==>
      || s.IngestHalted? || s.UploadTimeout? || s.ApproveTimeout? || s.TransferStatusTimeout?
      || s.CancelledByUser? || s.AmDeletionRequested?
    ensures IsAmSide(s) <==> s.IngestStatusTimeout? || s.Failed? || s.AsMetadataDrift? || s.DuracloudTimeout?
  {
  }

  lemma CancelIsOffered(s: State)
    ensures Offers(s, Action.Cancel) <==> IsCancellable(s)
  {
  }

  lemma InFlightClass(s: State)
    ensures IsInFlight(s) <==> IsCancellable(s)
  {
    CancelIsOffered(s);
    ReturnClasses(s);
    HaltClasses(s);
  }

  lemma HaltedRow(r: QRow)
    ensures Halted(r) == if IsCancellable(r.pipelineState) then QRow(r.batch, CancelledByUser, CancelledByUser, r.complete) else r
  {
  }

  /** A cancelled row goes back to packaging, a row halted before Archivematica to the ready folder. */
  lemma ReturnedRow(r: QRow)
    ensures var s := r.pipelineState;
      Returned(r) ==
        if s.CancelledByUser? || s.AmDeletionRequested? then QRow(r.batch, ReturnedToPackaging, ReturnedToPackaging, true)
        else if s.IngestHalted? || s.UploadTimeout? || s.ApproveTimeout? || s.TransferStatusTimeout?
        then QRow(r.batch, RolledBackToReady, RolledBackToReady, true)
        else r
  {
  }

  /** ... and the tallies are numbers of rows. */
  lemma {:induction false} TallyIs(rows: map<Id, QRow>, listed: seq<Id>, class_: State -> bool)
    requires Distinct(listed)
    ensures Tally(rows, listed, class_) == |set id: Id | id in listed && id in rows && class_(rows[id].pipelineState)|
  {
    var all := set id: Id | id in listed && id in rows && class_(rows[id].pipelineState);
    if listed == [] {
      assert all == {};
    } else {
      var init, last := listed[..|listed| - 1], listed[|listed| - 1];
      TallyIs(rows, init, class_);
      assert last !in init && forall id :: id in listed <==> id in init || id == last;
      assert all == (set id: Id | id in init && id in rows && class_(rows[id].pipelineState))
        + if last in rows && class_(rows[last].pipelineState) then {last} else {};
    }
  }

  ghost predicate HaltCounts(s: CancelSummary, rows: map<Id, QRow>, listed: seq<Id>) {
    && s.cancelled == Tally(rows, listed, IsCancellable)
    && s.alreadyHalted == Tally(rows, listed, IsHalted)
    && s.cancelled + s.alreadyHalted + s.skippedOther == |listed|
  }

  ghost predicate ReturnCounts(s: RollbackSummary, rows: map<Id, QRow>, listed: seq<Id>) {
    && s.rolledBack == Tally(rows, listed, IsReturnable)
    && s.skippedAmSide == Tally(rows, listed, IsAmSide)
    && s.skippedInFlight == Tally(rows, listed, IsInFlight)
    && s.rolledBack + s.skippedAmSide + s.skippedInFlight + s.skippedOther == |listed|
  }

  lemma HaltCountsStep(s: CancelSummary, s': CancelSummary, rows: map<Id, QRow>, listed: seq<Id>, i: nat)
    requires i < |listed| && listed[i] in rows && HaltCounts(s, rows, listed[..i])
    requires var st := rows[listed[i]].pipelineState;
      s' == if IsCancellable(st) then s.(cancelled := s.cancelled + 1)
            else if IsHalted(st) then s.(alreadyHalted := s.alreadyHalted + 1)
            else s.(skippedOther := s.skippedOther + 1)
    ensures HaltCounts(s', rows, listed[..i + 1])
  {
    assert listed[..i + 1][..i] == listed[..i];
  }

  lemma ReturnCountsStep(s: RollbackSummary, s': RollbackSummary, rows: map<Id, QRow>, listed: seq<Id>, i: nat)
    requires i < |listed| && listed[i] in rows && ReturnCounts(s, rows, listed[..i])
    requires var st := rows[listed[i]].pipelineState;
      s' == if IsReturnable(st) then s.(rolledBack := s.rolledBack + 1)
            else if IsAmSide(st) then s.(skippedAmSide := s.skippedAmSide + 1)
            else if IsInFlight(st) then s.(skippedInFlight := s.skippedInFlight + 1)
            else s.(skippedOther := s.skippedOther + 1)
    ensures ReturnCounts(s', rows, listed[..i + 1])
  {
    assert listed[..i + 1][..i] == listed[..i];
  }

  /** The tables with the batch halted and returned, row by row. */
  ghost predicate HaltedTable(was: map<Id, QRow>, now: map<Id, QRow>, listed: seq<Id>) {
    && now.Keys == was.Keys
    && forall id | id in was :: var r := was[id];
         now[id] == if id in listed && IsCancellable(r.pipelineState) then QRow(r.batch, CancelledByUser, CancelledByUser, r.complete)
                    else r
  }

  ghost predicate ReturnedTable(was: map<Id, QRow>, now: map<Id, QRow>, listed: seq<Id>) {
    && now.Keys == was.Keys
    && forall id | id in was :: var r := was[id]; var s := r.pipelineState;
         now[id] ==
           if id in listed && (s.CancelledByUser? || s.AmDeletionRequested?)
           then QRow(r.batch, ReturnedToPackaging, ReturnedToPackaging, true)
           else if id in listed && (s.IngestHalted? || s.UploadTimeout? || s.ApproveTimeout? || s.TransferStatusTimeout?)
           then QRow(r.batch, RolledBackToReady, RolledBackToReady, true)
           else r
  }

  lemma AllHaltedIs(was: map<Id, QRow>, listed: seq<Id>)
    ensures HaltedTable(was, AllHalted(was, listed), listed)
  {
    forall id | id in was ensures Halted(was[id]) ==
      if IsCancellable(was[id].pipelineState) then QRow(was[id].batch, CancelledByUser, CancelledByUser, was[id].complete) else was[id]
    {
      HaltedRow(was[id]);
    }
  }

  lemma AllReturnedIs(was: map<Id, QRow>, listed: seq<Id>)
    ensures ReturnedTable(was, AllReturned(was, listed), listed)
  {
    forall id | id in was ensures var r := was[id]; var s := r.pipelineState;
      Returned(r) ==
        if s.CancelledByUser? || s.AmDeletionRequested? then QRow(r.batch, ReturnedToPackaging, ReturnedToPackaging, true)
        else if s.IngestHalted? || s.UploadTimeout? || s.ApproveTimeout? || s.TransferStatusTimeout?
        then QRow(r.batch, RolledBackToReady, RolledBackToReady, true)
        else r
    {
      ReturnedRow(was[id]);
    }
  }

  /** The log has grown by `added` staff events of listed rows, each from the state its row had. */
  ghost predicate Logged(was: map<Id, QRow>, before: seq<Event>, after: seq<Event>, listed: seq<Id>, added: nat, at: nat,
                         targets: set<State>) {
    && |after| == |before| + added && after[..|before|] == before
    && forall k | |before| <= k < |after| :: var e := after[k];
         && e.queueId in listed && e.queueId in was && e.from == Some(was[e.queueId].pipelineState)
         && e.kind.StaffAction? && e.payloadFrom == e.from && e.at == at && e.to in targets
  }

  lemma LoggedStep(was: map<Id, QRow>, before: seq<Event>, now: seq<Event>, after: seq<Event>, listed: seq<Id>, added: nat, at: nat,
                   targets: set<State>, id: Id, to: State, acts: bool)
    requires Logged(was, before, now, listed, added, at, targets) && id in listed && id in was && (acts ==> to in targets)
    requires var st := was[id].pipelineState;
      after == now + if acts then [Event(id, Some(st), to, StaffAction, Some(st), at)] else []
    ensures Logged(was, before, after, listed, added + if acts then 1 else 0, at, targets)
  {
    assert after[..|before|] == now[..|before|];
  }

  /** The body of cancel_batch's loop. */
  method HaltOne(q: QueueModel, id: Id, s: CancelSummary, at: nat) returns (s': CancelSummary)
    requires id in q.rows && Synced(q.Q())
    modifies q
    ensures Synced(q.Q()) && q.rows == old(q.rows)[id := Halted(old(q.rows)[id])]
    ensures var st := old(q.rows)[id].pipelineState;
      q.events == old(q.events) +
        if IsCancellable(st) then [Event(id, Some(st), CancelledByUser, StaffAction, Some(st), at)] else []
    ensures var st := old(q.rows)[id].pipelineState;
      s' == if IsCancellable(st) then s.(cancelled := s.cancelled + 1)
            else if IsHalted(st) then s.(alreadyHalted := s.alreadyHalted + 1)
            else s.(skippedOther := s.skippedOther + 1)
  {
    var state := q.rows[id].pipelineState;
    if !IsCancellable(state) {
      if Offers(state, RollbackToPackaging) || Offers(state, RollbackArchivematica)
         || Offers(state, RollbackPreIngest) || Offers(state, Action.Reset) {
        s' := s.(alreadyHalted := s.alreadyHalted + 1);
      } else {
        s' := s.(skippedOther := s.skippedOther + 1);
      }
      return;
    }
    Flip(q, id, CancelledByUser, false, at);
    s' := s.(cancelled := s.cancelled + 1);
  }

  const HALTS: set<State> := {CancelledByUser}

  ghost predicate HaltSoFar(was: map<Id, QRow>, ev0: seq<Event>, ev: seq<Event>, listed: seq<Id>, i: nat, s: CancelSummary, at: nat)
    requires i <= |listed|
  {
    s.totalOpen == |listed| && HaltCounts(s, was, listed[..i]) && Logged(was, ev0, ev, listed, s.cancelled, at, HALTS)
  }

  lemma HaltGoesOn(was: map<Id, QRow>, ev0: seq<Event>, ev: seq<Event>, ev': seq<Event>, listed: seq<Id>, i: nat,
                   s: CancelSummary, s': CancelSummary, at: nat, st: State)
    requires i < |listed| && listed[i] in was && st == was[listed[i]].pipelineState && HaltSoFar(was, ev0, ev, listed, i, s, at)
    requires ev' == ev + if IsCancellable(st) then [Event(listed[i], Some(st), CancelledByUser, StaffAction, Some(st), at)] else []
    requires s' == if IsCancellable(st) then s.(cancelled := s.cancelled + 1)
                   else if IsHalted(st) then s.(alreadyHalted := s.alreadyHalted + 1)
                   else s.(skippedOther := s.skippedOther + 1)
    ensures HaltSoFar(was, ev0, ev', listed, i + 1, s', at)
  {
    LoggedStep(was, ev0, ev, ev', listed, s.cancelled, at, HALTS, listed[i], CancelledByUser, IsCancellable(st));
    HaltCountsStep(s, s', was, listed, i);
  }

  /** cancel_batch. */
  method CancelBatch(q: QueueModel, batch: string, listed: seq<Id>, at: nat) returns (s: CancelSummary)
    requires Synced(q.Q()) && Lists(q.rows, batch, listed)
    modifies q
    ensures Synced(q.Q()) && q.rows == AllHalted(old(q.rows), listed)
    ensures s.totalOpen == |listed| && HaltCounts(s, old(q.rows), listed)
    ensures HaltedTable(old(q.rows), q.rows, listed)
    ensures Logged(old(q.rows), old(q.events), q.events, listed, s.cancelled, at, HALTS)
  {
    s := CancelSummary(|listed|, 0, 0, 0);
    var i := 0;
    ghost var was := q.rows;
    assert AllHalted(was, listed[..0]) == was;
    while i < |listed|
      invariant 0 <= i <= |listed| && Synced(q.Q()) && q.rows == AllHalted(was, listed[..i])
      invariant HaltSoFar(was, old(q.events), q.events, listed, i, s, at)
    {
      assert listed[i] in listed;
      HaltedStep(was, listed, i);
      ghost var before, events := s, q.events;
      s := HaltOne(q, listed[i], s, at);
      HaltGoesOn(was, old(q.events), events, q.events, listed, i, before, s, at, was[listed[i]].pipelineState);
      i := i + 1;
    }
    assert listed[..i] == listed;
    AllHaltedIs(was, listed);
  }

  /** The body of rollback_batch_pre's loop. */
  method ReturnOne(q: QueueModel, id: Id, s: RollbackSummary, at: nat) returns (s': RollbackSummary)
    requires id in q.rows && Synced(q.Q())
    modifies q
    ensures Synced(q.Q()) && q.rows == old(q.rows)[id := Returned(old(q.rows)[id])]
    ensures var st, to := old(q.rows)[id].pipelineState, Returned(old(q.rows)[id]).pipelineState;
      q.events == old(q.events) + if IsReturnable(st) then [Event(id, Some(st), to, StaffAction, Some(st), at)] else []
    ensures var st := old(q.rows)[id].pipelineState;
      s' == if IsReturnable(st) then s.(rolledBack := s.rolledBack + 1)
            else if IsAmSide(st) then s.(skippedAmSide := s.skippedAmSide + 1)
            else if IsInFlight(st) then s.(skippedInFlight := s.skippedInFlight + 1)
            else s.(skippedOther := s.skippedOther + 1)
  {
    var state := q.rows[id].pipelineState;
    if Offers(state, RollbackPreIngest) {
      Flip(q, id, RolledBackToReady, true, at);
      s' := s.(rolledBack := s.rolledBack + 1);
    } else if Offers(state, RollbackToPackaging) {
      Flip(q, id, ReturnedToPackaging, true, at);
      s' := s.(rolledBack := s.rolledBack + 1);
    } else if Offers(state, RollbackArchivematica) {
      s' := s.(skippedAmSide := s.skippedAmSide + 1);
    } else if Offers(state, Action.Cancel) {
      s' := s.(skippedInFlight := s.skippedInFlight + 1);
    } else {
      s' := s.(skippedOther := s.skippedOther + 1);
    }
  }

  const RETURNS: set<State> := {ReturnedToPackaging, RolledBackToReady}

  /** rollback_batch_pre. */
  method ReturnBatch(q: QueueModel, batch: string, listed: seq<Id>, at: nat) returns (s: RollbackSummary)
    requires Synced(q.Q()) && Lists(q.rows, batch, listed)
    modifies q
    ensures Synced(q.Q()) && q.rows == AllReturned(old(q.rows), listed)
    ensures s.totalOpen == |listed| && ReturnCounts(s, old(q.rows), listed)
    ensures ReturnedTable(old(q.rows), q.rows, listed)
    ensures Logged(old(q.rows), old(q.events), q.events, listed, s.rolledBack, at, RETURNS)
  {
    s := RollbackSummary(|listed|, 0, 0, 0, 0);
    var i := 0;
    ghost var was := q.rows;
    assert AllReturned(was, listed[..0]) == was;
    while i < |listed|
      invariant 0 <= i <= |listed| && Synced(q.Q()) && q.rows == AllReturned(was, listed[..i])
      invariant s.totalOpen == |listed| && ReturnCounts(s, was, listed[..i])
      invariant Logged(was, old(q.events), q.events, listed, s.rolledBack, at, RETURNS)
    {
      assert listed[i] in listed;
      ReturnedStep(was, listed, i);
      ghost var before, events := s, q.events;
      s := ReturnOne(q, listed[i], s, at);
      LoggedStep(was, old(q.events), events, q.events, listed, before.rolledBack, at, RETURNS,
                 listed[i], Returned(was[listed[i]]).pipelineState, IsReturnable(was[listed[i]].pipelineState));
      ReturnCountsStep(before, s, was, listed, i);
      i := i + 1;
    }
    assert listed[..i] == listed;
    AllReturnedIs(was, listed);
  }

  // --- halt, then return -----------------------------------------------------------------------------

  /** A state that neither halting nor returning the batch deals with. */
  predicate NeedsOwnDecision(s: State) {
    !Offers(s, Action.Cancel) && !Offers(s, RollbackPreIngest) && !Offers(s, RollbackToPackaging)
  }

  lemma HaltThenReturnRow(r: QRow)
    requires !r.complete
    ensures Returned(Halted(r)).complete <==> !NeedsOwnDecision(r.pipelineState)
    ensures NeedsOwnDecision(r.pipelineState) ==> Returned(Halted(r)) == r
  {
  }

  /** HALT THEN RETURN. On a batch of fewer than 1000 open rows the two actions together close
      every open row but those that need a decision of their own (failures on the Archivematica
      side, invalid metadata, Stage 6), which they leave as they were; no other batch changes. */
  lemma HaltThenReturnClears(rows: map<Id, QRow>, batch: string, listed: seq<Id>, again: seq<Id>)
    requires Lists(rows, batch, listed) && |listed| < 1000
    requires Lists(AllHalted(rows, listed), batch, again)
    ensures var after := AllReturned(AllHalted(rows, listed), again);
      && (forall id | id in rows && (rows[id].batch != batch || rows[id].complete) :: after[id] == rows[id])
      && (forall id | id in rows && rows[id].batch == batch && !rows[id].complete ::
            after[id] == Returned(Halted(rows[id])) && (!after[id].complete <==> NeedsOwnDecision(rows[id].pipelineState)))
  {
    var mid := AllHalted(rows, listed);
    assert forall id | id in rows :: mid[id].batch == rows[id].batch && mid[id].complete == rows[id].complete;
    SameListLength(listed, again);
    forall id | id in rows && rows[id].batch == batch && !rows[id].complete
      ensures id in listed && id in again
      ensures Returned(Halted(rows[id])).complete <==> !NeedsOwnDecision(rows[id].pipelineState)
    {
      HaltThenReturnRow(rows[id]);
    }
  }

  /** A list without repeats whose members all occur in another is no longer than it. */
  lemma {:induction false} SameListLength(a: seq<Id>, b: seq<Id>)
    requires Distinct(b) && forall id | id in b :: id in a
    ensures |b| <= |a|
  {
    var inA, inB := set id: Id | id in a, set id: Id | id in b;
    SizeAtMost(a);
    SizeDistinct(b);
    assert inB <= inA;
    Subset(inB, inA);
  }

  lemma {:induction false} SizeAtMost(a: seq<Id>)
    ensures |set id: Id | id in a| <= |a|
  {
    if a != [] {
      SizeAtMost(a[1..]);
      assert (set id: Id | id in a) == (set id: Id | id in a[1..]) + {a[0]};
    }
  }

  lemma {:induction false} SizeDistinct(b: seq<Id>)
    requires Distinct(b)
    ensures |set id: Id | id in b| == |b|
  {
    if b != [] {
      SizeDistinct(b[1..]);
      assert b[0] !in b[1..];
      assert (set id: Id | id in b) == (set id: Id | id in b[1..]) + {b[0]};
    }
  }

  lemma {:induction false} Subset(a: set<Id>, b: set<Id>)
    requires a <= b
    ensures |a| <= |b|
  {
    if x :| x in a { Subset(a - {x}, b - {x}); }
  }
}
