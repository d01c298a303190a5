/** The gates over whole runs: at most one package per window, in every reachable world,
    across crashes and boots; and the worker never idles on an open package. */
module GateTheorems {
  import opened Basics
  import opened PipelineStates
  import opened IngestGates
  import opened GateInvariants

  /** A run: worlds[k + 1] is what labels[k] makes of worlds[k]. It starts with an empty
      table and a fresh process. */
  ghost predicate IsRun(cfg: Config, worlds: seq<World>, labels: seq<Label>) {
    && |worlds| == |labels| + 1
    && worlds[0] == World(map[], map[], {}, {}, {})
    && forall k | 0 <= k < |labels| :: Enabled(worlds[k], labels[k]) && worlds[k + 1] == Apply(cfg, worlds[k], labels[k])
  }

  ghost predicate NeverBypasses(g: Gate, cfg: Config, worlds: seq<World>, labels: seq<Label>)
    requires IsRun(cfg, worlds, labels)
  {
    forall k | 0 <= k < |labels| :: !Bypasses(g, worlds[k], labels[k])
  }

  lemma {:induction false} RunKeepsGate(g: Gate, cfg: Config, worlds: seq<World>, labels: seq<Label>, k: nat)
    requires IsRun(cfg, worlds, labels) && k < |worlds|
    requires !Blind(g) && Enforced(g, cfg) && NeverBypasses(g, cfg, worlds, labels)
    ensures worlds[k].Valid() && AtMostOne(Occupants(g, worlds[k]))
  {
    if k > 0 {
      RunKeepsGate(g, cfg, worlds, labels, k - 1);
      StepKeepsValid(cfg, worlds[k - 1], labels[k - 1]);
      StepKeepsGate(g, cfg, worlds[k - 1], labels[k - 1]);
    }
  }

  /** SERIAL PIPELINE. With no retry of an access copy, and rows enqueued outside the
      mid-pipeline states, the open mid-pipeline rows and the dispatched stage 1-5 rows
      together never number more than one. */
  lemma SerialPipeline(cfg: Config, worlds: seq<World>, labels: seq<Label>, k: nat)
    requires IsRun(cfg, worlds, labels) && k < |worlds| && cfg.Serial()
    requires forall i | 0 <= i < |labels| :: !labels[i].RetryAccessCopy?
    requires forall i | 0 <= i < |labels| && labels[i].Enqueue? :: !IsMid(labels[i].row.state)
    ensures var w := worlds[k];
      |(set id | id in w.rows && !w.rows[id].complete && IsMid(w.rows[id].state)) + w.pipeline| <= 1
  {
    var w := worlds[k];
    RunKeepsGate(SerialGate, cfg, worlds, labels, k);
    AtMostOneCard(Occupants(SerialGate, w));
    assert (set id | id in w.rows && !w.rows[id].complete && IsMid(w.rows[id].state)) + w.pipeline
      == Occupants(SerialGate, w);
  }

  /** On every run whatever, retries and odd enqueues included, one stage 1-5 row at most is
      dispatched. */
  lemma OneDispatchAtATime(cfg: Config, worlds: seq<World>, labels: seq<Label>, k: nat)
    requires IsRun(cfg, worlds, labels) && k < |worlds| && cfg.Serial()
    ensures |worlds[k].pipeline| <= 1
  {
    var w := worlds[k];
    RunKeepsGate(OneDispatchGate, cfg, worlds, labels, k);
    AtMostOneCard(Occupants(OneDispatchGate, w));
    assert w.pipeline == Occupants(OneDispatchGate, w);
  }

  /** ARCHIVEMATICA. Unless parallel transfers are configured, the open rows in the four
      inside states and the rows dispatched from an Archivematica state together never number
      more than one - in serial and in interleaved mode, with retries of access copies. */
  lemma OnePackageInArchivematica(cfg: Config, worlds: seq<World>, labels: seq<Label>, k: nat)
    requires IsRun(cfg, worlds, labels) && k < |worlds| && !cfg.amParallel
    requires forall i | 0 <= i < |labels| && labels[i].Enqueue? :: !IsEarlyMid(labels[i].row.state)
    ensures var w := worlds[k];
      |(set id | id in w.rows && !w.rows[id].complete && IsAmInside(w.rows[id].state)) + w.am| <= 1
  {
    var w := worlds[k];
    var g := if cfg.Serial() then EarlyGate else AmGate;
    RunKeepsGate(g, cfg, worlds, labels, k);
    AmWithin(g, w);
    AtMostOneCard((set id | id in w.rows && !w.rows[id].complete && IsAmInside(w.rows[id].state)) + w.am);
  }

  lemma AmWithin(g: Gate, w: World)
    requires w.Valid() && (g == EarlyGate || g == AmGate)
    ensures (set id | id in w.rows && !w.rows[id].complete && IsAmInside(w.rows[id].state)) + w.am <= Occupants(g, w)
  {
    forall id | id in w.am ensures id in Occupants(g, w) {
      assert Holding(g, w, id);
    }
    forall id | id in w.rows && !w.rows[id].complete && IsAmInside(w.rows[id].state) ensures id in Occupants(g, w) {
      assert Resting(g, w, id);
    }
  }

  /** STAGE 6. One preservation copy at a time: rows at AipStoreInProgress together with
      dispatched stage 6 rows never number more than one, through stops, retries, backfills
      and restarts. */
  lemma OneCopyAtATime(cfg: Config, worlds: seq<World>, labels: seq<Label>, k: nat)
    requires IsRun(cfg, worlds, labels) && k < |worlds| && cfg.stage6Serial
    requires forall i | 0 <= i < |labels| && labels[i].Enqueue? :: !labels[i].row.state.AipStoreInProgress?
    ensures var w := worlds[k];
      |(set id | id in w.rows && !w.rows[id].complete && w.rows[id].state.AipStoreInProgress?) + w.stage6| <= 1
  {
    var w := worlds[k];
    RunKeepsGate(CopyGate, cfg, worlds, labels, k);
    AtMostOneCard(Occupants(CopyGate, w));
    assert (set id | id in w.rows && !w.rows[id].complete && w.rows[id].state.AipStoreInProgress?) + w.stage6
      == Occupants(CopyGate, w);
  }

  /** A new package is admitted only when nothing is mid-pipeline and nothing is dispatched. */
  lemma NewPackageWaits(cfg: Config, w: World, backoff: Backoff, id: Id)
    requires w.Valid() && cfg.Serial() && id in Claim(cfg, w, backoff)
    requires id in w.rows && w.rows[id].state.Pending?
    ensures w.pipeline == {}
    ensures forall x | x in w.rows && !w.rows[x].complete :: !IsMid(w.rows[x].state)
  {
    TickFacts(SerialGate, cfg, w, backoff);
    assert Holds(SerialGate, w.rows[id].state);
    forall x | x in w.pipeline ensures false {
      assert Holding(SerialGate, w, x);
    }
    forall x | x in w.rows && !w.rows[x].complete ensures !IsMid(w.rows[x].state) {
      assert !Resting(SerialGate, w, x);
    }
  }

  /** RETRY, exactly. Returning a halted package to its access-copy wait keeps the serial
      pipeline serial if and only if no other package is in the pipeline at that moment. */
  lemma RetryKeepsSerialIff(cfg: Config, w: World, id: Id)
    requires w.Valid() && cfg.Serial() && AtMostOne(Occupants(SerialGate, w))
    requires w.Open(id) && w.rows[id].state.DuracloudTimeout?
    ensures Enabled(w, Label.RetryAccessCopy(id))
    ensures AtMostOne(Occupants(SerialGate, Apply(cfg, w, Label.RetryAccessCopy(id)))) <==>
            forall x | x in w.rows && x != id :: !(w.Open(x) && IsMid(w.rows[x].state)) && x !in w.pipeline
  {
    StepKeepsGate(SerialGate, cfg, w, Label.RetryAccessCopy(id));
    assert Occupants(SerialGate, w) <= {id} <==>
      forall x | x in w.rows && x != id :: x !in Occupants(SerialGate, w);
  }

  // --- the claim loop ------------------------------------------------------------------

  lemma TakenMatches(cfg: Config, w: World, backoff: Backoff, st: State, claimed: seq<Id>)
    ensures var take := TakeFor(cfg, w, backoff, st, claimed);
      take != [] ==> take[0] in Matching(w.rows, st)
  {
    var take := TakeFor(cfg, w, backoff, st, claimed);
    assert take != [] ==> take[0] in take;
  }

  lemma {:induction false} NothingToTake(cfg: Config, w: World, backoff: Backoff, order: seq<State>, claimed: seq<Id>)
    requires forall st | st in order :: Matching(w.rows, st) == {}
    ensures ClaimFrom(cfg, w, backoff, order, claimed) == claimed
    decreases |order|
  {
    if order != [] {
      assert order[0] in order;
      TakenMatches(cfg, w, backoff, order[0], claimed);
      assert claimed + [] == claimed;
      NothingToTake(cfg, w, backoff, order[1..], claimed);
    }
  }

  lemma {:induction false} ClaimSplit(cfg: Config, w: World, backoff: Backoff, a: seq<State>, b: seq<State>, claimed: seq<Id>)
    ensures ClaimFrom(cfg, w, backoff, a + b, claimed) ==
            ClaimFrom(cfg, w, backoff, b, ClaimFrom(cfg, w, backoff, a, claimed))
    decreases |a|
  {
    if a == [] {
      assert a + b == b;
    } else {
      assert (a + b)[1..] == a[1..] + b;
      ClaimSplit(cfg, w, backoff, a[1..], b, claimed + TakeFor(cfg, w, backoff, a[0], claimed));
    }
  }

  lemma {:induction false} ClaimKeeps(cfg: Config, w: World, backoff: Backoff, order: seq<State>, claimed: seq<Id>)
    ensures claimed <= ClaimFrom(cfg, w, backoff, order, claimed)
    decreases |order|
  {
    if order != [] {
      ClaimKeeps(cfg, w, backoff, order[1..], claimed + TakeFor(cfg, w, backoff, order[0], claimed));
    }
  }

  // --- progress -----------------------------------------------------------------------

  /** Rows dispatched to stage 6 stay out of the pipeline states and out of the states from
      which a staff action could put them back. */
  ghost predicate CopiesParked(w: World) {
    forall id | id in w.controllers && id in w.rows && IsStage6(w.controllers[id].entry) :: Parked(w.rows[id].state)
  }

  predicate Parked(st: State) {
    !IsPipeline(st) && !st.DuracloudTimeout? && !st.AsMetadataInvalid? && !IsActivelyRunning(st)
  }

  lemma TickKeepsParked(cfg: Config, w: World, backoff: Backoff)
    requires w.Valid() && CopiesParked(w)
    ensures CopiesParked(Apply(cfg, w, Tick(backoff)))
  {
    ClaimIsWellFormed(cfg, w, backoff);
    DispatchEffect(w, Claim(cfg, w, backoff));
    DispatchKeepsParked(w, Apply(cfg, w, Tick(backoff)), Claim(cfg, w, backoff));
  }

  lemma DispatchKeepsParked(w: World, w': World, claimed: seq<Id>)
    requires CopiesParked(w) && w'.rows == w.rows
    requires forall id :: id in w'.controllers <==> id in w.controllers || id in claimed
    requires forall id | id in claimed :: id in w.rows && w'.controllers[id].entry == w.rows[id].state
    requires forall id | id in w.controllers :: w'.controllers[id].entry == w.controllers[id].entry
    ensures CopiesParked(w')
  {
  }

  lemma StepKeepsParked(cfg: Config, w: World, l: Label)
    requires w.Valid() && Enabled(w, l) && CopiesParked(w)
    ensures CopiesParked(Apply(cfg, w, l))
  {
    if l.Tick? {
      TickKeepsParked(cfg, w, l.backoff);
    } else {
      var w' := Apply(cfg, w, l);
      StepAddsNoHolder(cfg, w, l);
      forall id | id in w'.controllers && id in w'.rows && IsStage6(w'.controllers[id].entry)
        ensures Parked(w'.rows[id].state)
      {
        StepParksRow(cfg, w, w', l, id);
      }
    }
  }

  /** Where a step that is not a tick can take a row: entry is the dispatched state, if any. */
  predicate Reaches(from: State, to: State, dispatched: bool, entry: State) {
    || to == from
    || (dispatched && MayWrite(entry, to))
    || to.IngestHalted? || to.CancelledByUser? || to.AipStorePending? || to.AipStoreFailed? || to.Complete?
    || to.RolledBackToReady? || to.ReturnedToPackaging? || to.AmDeletionRequested?
    || from.AsMetadataInvalid? || from.DuracloudTimeout? || IsActivelyRunning(from)
  }

  /** The steps that write many rows at once. */
  predicate IsSweep(l: Label) {
    l.CancelBackfill? || l.ResetOrphans? || l.FinalizeCompletes?
  }

  lemma SweepReaches(cfg: Config, w: World, l: Label, id: Id)
    requires w.Valid() && Enabled(w, l) && IsSweep(l) && id in w.rows && id in w.controllers
    ensures id in Apply(cfg, w, l).rows
    ensures Reaches(w.rows[id].state, Apply(cfg, w, l).rows[id].state, true, w.controllers[id].entry)
  {
  }

  lemma StepReaches(cfg: Config, w: World, l: Label, id: Id)
    requires w.Valid() && Enabled(w, l) && !l.Tick? && id in w.rows && id in w.controllers
    ensures id in Apply(cfg, w, l).rows
    ensures Reaches(w.rows[id].state, Apply(cfg, w, l).rows[id].state, true, w.controllers[id].entry)
  {
    if IsSweep(l) { SweepReaches(cfg, w, l, id); }
  }

  lemma CopyWritesPark(entry: State, to: State)
    requires IsStage6(entry) && MayWrite(entry, to)
    ensures to.AipStorePending? || to.AipStoreInProgress? || to.AipStoreComplete? || to.AipStoreFailed? || to.Complete?
  {
  }

  lemma ReachesParked(from: State, to: State, entry: State)
    requires Parked(from) && IsStage6(entry) && Reaches(from, to, true, entry)
    ensures Parked(to)
  {
    if to == from {
    } else if MayWrite(entry, to) {
      CopyWritesPark(entry, to);
    } else {
      assert to.IngestHalted? || to.CancelledByUser? || to.AipStorePending? || to.AipStoreFailed? || to.Complete?
        || to.RolledBackToReady? || to.ReturnedToPackaging? || to.AmDeletionRequested?;
    }
  }

  lemma StepParksRow(cfg: Config, w: World, w': World, l: Label, id: Id)
    requires w.Valid() && Enabled(w, l) && CopiesParked(w) && !l.Tick? && w' == Apply(cfg, w, l)
    requires id in w.controllers && id in w.rows && IsStage6(w.controllers[id].entry)
    ensures id in w'.rows && Parked(w'.rows[id].state)
  {
    StepReaches(cfg, w, l, id);
    ReachesParked(w.rows[id].state, w'.rows[id].state, w.controllers[id].entry);
  }

  lemma {:induction false} RunKeepsParked(cfg: Config, worlds: seq<World>, labels: seq<Label>, k: nat)
    requires IsRun(cfg, worlds, labels) && k < |worlds|
    ensures worlds[k].Valid() && CopiesParked(worlds[k])
  {
    if k > 0 {
      RunKeepsParked(cfg, worlds, labels, k - 1);
      StepKeepsValid(cfg, worlds[k - 1], labels[k - 1]);
      StepKeepsParked(cfg, worlds[k - 1], labels[k - 1]);
    }
  }

  /** No open pipeline row rests in any of the first k states of the serial claim order. */
  ghost predicate NoneBefore(w: World, k: nat)
    requires k <= 13
  {
    forall i | 0 <= i < k :: Matching(w.rows, SERIAL_CLAIM_ORDER[i]) == {}
  }

  lemma BeyondIndex(w: World, k: nat, id: Id)
    requires k <= 13 && NoneBefore(w, k)
    requires w.Open(id) && IsPipeline(w.rows[id].state)
    ensures k <= SerialIndex(w.rows[id].state)
  {
    assert id in Matching(w.rows, SERIAL_CLAIM_ORDER[SerialIndex(w.rows[id].state)]);
  }

  lemma HeadGateOpen(cfg: Config, w: World, k: nat)
    requires cfg.Serial() && w.pipeline == {} && k < 13 && NoneBefore(w, k)
    ensures !Gated(cfg, w, SERIAL_CLAIM_ORDER[k], [])
  {
    if k == 12 {
      forall id | w.Open(id) ensures !IsMid(w.rows[id].state) {
        if IsPipeline(w.rows[id].state) { BeyondIndex(w, 12, id); }
      }
      CountZero(w.rows, IsMid);
    }
    assert IsPipeline(SERIAL_CLAIM_ORDER[k]);
  }

  lemma HeadTaken(cfg: Config, w: World, backoff: Backoff, k: nat)
    requires w.Valid() && CopiesParked(w) && cfg.Serial() && cfg.concurrency >= 1 && w.pipeline == {}
    requires k < 13 && NoneBefore(w, k) && Matching(w.rows, SERIAL_CLAIM_ORDER[k]) != {}
    ensures var st := SERIAL_CLAIM_ORDER[k];
      TakeFor(cfg, w, backoff, st, []) == [MaxId(Matching(w.rows, st))]
  {
    var st := SERIAL_CLAIM_ORDER[k];
    var m := MaxId(Matching(w.rows, st));
    assert IsPipeline(st) && !st.AipStorePending?;
    HeadGateOpen(cfg, w, k);
    assert m in Matching(w.rows, st) && m !in w.pipeline;
    assert m !in w.controllers;
    var candidates := Candidates(w.rows, backoff, st, cfg.concurrency);
    assert candidates[0] == m;
    assert NotInFlight(w, candidates)[0] == m;
  }

  /** The position of a pipeline state in the serial claim order. */
  function SerialIndex(st: State): (i: nat)
    requires IsPipeline(st)
    ensures i < 13 && SERIAL_CLAIM_ORDER[i] == st
  {
    match st
    case CreatingRepositoryRecord => 0
    case MetadataProcessed => 1
    case WaitingForDuracloud => 2
    case IngestComplete => 3
    case IngestInProgress => 4
    case TransferComplete => 5
    case TransferInProgress => 6
    case TransferStarted => 7
    case UploadComplete => 8
    case Uploading => 9
    case QaComplete => 10
    case ProcessingMetadata => 11
    case Pending => 12
  }

  lemma {:induction false} HeadFrom(cfg: Config, w: World, backoff: Backoff, k: nat) returns (j: nat)
    requires w.Valid() && CopiesParked(w) && cfg.Serial() && cfg.concurrency >= 1 && w.pipeline == {}
    requires k < 13 && NoneBefore(w, k) && !NoneBefore(w, 13)
    ensures k <= j < 13 && NoneBefore(w, j) && Matching(w.rows, SERIAL_CLAIM_ORDER[j]) != {}
    ensures [MaxId(Matching(w.rows, SERIAL_CLAIM_ORDER[j]))] <= ClaimFrom(cfg, w, backoff, SERIAL_CLAIM_ORDER[k..], [])
    decreases 13 - k
  {
    var st := SERIAL_CLAIM_ORDER[k];
    var take := TakeFor(cfg, w, backoff, st, []);
    assert SERIAL_CLAIM_ORDER[k..][1..] == SERIAL_CLAIM_ORDER[k + 1..];
    assert [] + take == take;
    if Matching(w.rows, st) == {} {
      TakenMatches(cfg, w, backoff, st, []);
      assert NoneBefore(w, k + 1);
      j := HeadFrom(cfg, w, backoff, k + 1);
    } else {
      j := k;
      HeadTaken(cfg, w, backoff, k);
      ClaimKeeps(cfg, w, backoff, SERIAL_CLAIM_ORDER[k + 1..], take);
    }
  }

  /** Row h is open in the pipeline, at the latest stage any open row has reached, and the
      newest of those. */
  ghost predicate Foremost(w: World, h: Id) {
    && w.Open(h) && IsPipeline(w.rows[h].state)
    && forall x: Id | w.Open(x) && IsPipeline(w.rows[x].state) ::
         || SerialIndex(w.rows[h].state) < SerialIndex(w.rows[x].state)
         || (w.rows[h].state == w.rows[x].state && x <= h)
  }

  lemma HeadIsForemost(w: World, j: nat)
    requires j < 13 && NoneBefore(w, j) && Matching(w.rows, SERIAL_CLAIM_ORDER[j]) != {}
    ensures Foremost(w, MaxId(Matching(w.rows, SERIAL_CLAIM_ORDER[j])))
  {
    var h := MaxId(Matching(w.rows, SERIAL_CLAIM_ORDER[j]));
    assert IsPipeline(SERIAL_CLAIM_ORDER[j]);
    assert h in Matching(w.rows, SERIAL_CLAIM_ORDER[j]);
    forall x: Id | w.Open(x) && IsPipeline(w.rows[x].state)
      ensures SerialIndex(w.rows[h].state) < SerialIndex(w.rows[x].state) || (w.rows[h].state == w.rows[x].state && x <= h)
    {
      BeyondIndex(w, j, x);
      assert x in Matching(w.rows, w.rows[x].state);
    }
  }

  /** PROGRESS. In serial mode, whenever no stage 1-5 row is dispatched and some row is open in
      the pipeline, the tick dispatches first the newest row of the latest stage reached: a
      package in flight drains before anything behind it moves. */
  lemma SerialTickDrainsLatestFirst(cfg: Config, worlds: seq<World>, labels: seq<Label>, k: nat, backoff: Backoff, some: Id)
    requires IsRun(cfg, worlds, labels) && k < |worlds|
    requires cfg.Serial() && cfg.concurrency >= 1 && worlds[k].pipeline == {}
    requires worlds[k].Open(some) && IsPipeline(worlds[k].rows[some].state)
    ensures var claimed := Claim(cfg, worlds[k], backoff);
      claimed != [] && Foremost(worlds[k], claimed[0])
  {
    RunKeepsParked(cfg, worlds, labels, k);
    TickDrainsLatestFirst(cfg, worlds[k], backoff, some);
  }

  lemma TickDrainsLatestFirst(cfg: Config, w: World, backoff: Backoff, some: Id)
    requires w.Valid() && CopiesParked(w) && cfg.Serial() && cfg.concurrency >= 1 && w.pipeline == {}
    requires w.Open(some) && IsPipeline(w.rows[some].state)
    ensures Claim(cfg, w, backoff) != [] && Foremost(w, Claim(cfg, w, backoff)[0])
  {
    var at := SerialIndex(w.rows[some].state);
    assert some in Matching(w.rows, SERIAL_CLAIM_ORDER[at]);
    var j := HeadFrom(cfg, w, backoff, 0);
    WholeOrder(cfg, w, backoff);
    HeadIsForemost(w, j);
  }

  lemma WholeOrder(cfg: Config, w: World, backoff: Backoff)
    requires cfg.Serial()
    ensures Claim(cfg, w, backoff) == ClaimFrom(cfg, w, backoff, SERIAL_CLAIM_ORDER[0..], [])
  {
    assert SERIAL_CLAIM_ORDER[0..] == SERIAL_CLAIM_ORDER;
  }
}
