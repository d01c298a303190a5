/** TransferApproved: stage 3 leaves it between two polls, and no set of the worker holds it. With
    that state counted as inside, when does a tick admit a second package? */
module ApprovedWindow {
  import opened Basics
  import opened PipelineStates
  import opened IngestGates
  import opened GateInvariants
  import opened GateTheorems

  // --- what a tick admits, read off the table and the memory ----------------------------------

  /** The tick dispatches a row that is in this state. */
  predicate ClaimsOne(cfg: Config, w: World, backoff: Backoff, st: State) {
    exists a :: a in Claim(cfg, w, backoff) && a in w.rows && w.rows[a].state == st
  }

  predicate Interleaved(cfg: Config) {
    !cfg.amParallel && !cfg.Serial()
  }

  /** Some row among the newest `room` open rows of the state is not in flight. */
  predicate SomeFree(w: World, st: State, room: nat) {
    exists a :: a in ListQueue(w.rows, st, room) && a !in w.controllers
  }

  /** How many rows of a state a query with a limit brings that are not in flight. */
  type Takes = (State, nat) -> nat

  function FreeOnPage(w: World): Takes {
    (st: State, room: nat) => |NotInFlight(w, ListQueue(w.rows, st, room))|
  }

  function Less(a: nat, b: nat): nat {
    if b <= a then a - b else 0
  }

  /** What is left of `room` once the free rows of each of these states have been taken. */
  function RoomLeft(takes: Takes, order: seq<State>, room: nat): nat
    decreases |order|
  {
    if order == [] then room else RoomLeft(takes, order[1..], Less(room, takes(order[0], room)))
  }

  /** Pending, ProcessingMetadata, QaComplete and Uploading come before UploadComplete. */
  const BEFORE_ENTRY: seq<State> := READY_STATES[..4]

  function EntryRoom(cfg: Config, w: World): nat {
    RoomLeft(FreeOnPage(w), BEFORE_ENTRY, cfg.concurrency)
  }

  ghost predicate NoneOpen(w: World, p: State -> bool) {
    forall id | w.Open(id) :: !p(w.rows[id].state)
  }

  predicate NoGate(st: State) {
    !IsAmActive(st) && !IsStage6(st)
  }

  lemma NotGated(cfg: Config, w: World, st: State, claimed: seq<Id>)
    requires Interleaved(cfg) && NoGate(st)
    ensures !Gated(cfg, w, st, claimed) && !OnePerTick(cfg, st)
  {
  }

  lemma PageOf(rows: map<Id, Row>, backoff: Backoff, st: State, limit: nat)
    requires !st.AipStorePending?
    ensures Candidates(rows, backoff, st, limit) == ListQueue(rows, st, limit)
  {
  }

  lemma {:induction false} OpenTake(cfg: Config, w: World, backoff: Backoff, st: State, claimed: seq<Id>, room: nat)
    requires !Gated(cfg, w, st, claimed) && !st.AipStorePending? && |claimed| + room == cfg.concurrency
    ensures TakeFor(cfg, w, backoff, st, claimed) == Pick(w, OnePerTick(cfg, st), ListQueue(w.rows, st, room))
  {
    PageOf(w.rows, backoff, st, room);
  }

  lemma {:induction false} UngatedTake(cfg: Config, w: World, backoff: Backoff, st: State, claimed: seq<Id>, room: nat)
    requires Interleaved(cfg) && NoGate(st) && |claimed| + room == cfg.concurrency
    ensures |TakeFor(cfg, w, backoff, st, claimed)| == FreeOnPage(w)(st, room)
  {
    NotGated(cfg, w, st, claimed);
    OpenTake(cfg, w, backoff, st, claimed, room);
  }

  ghost predicate TakesAre(cfg: Config, w: World, backoff: Backoff, takes: Takes) {
    forall st: State, claimed: seq<Id>, room: nat | NoGate(st) && |claimed| + room == cfg.concurrency ::
      |TakeFor(cfg, w, backoff, st, claimed)| == takes(st, room)
  }

  /** The claims in states without a gate use up the room. */
  lemma {:induction false} UngatedClaims(cfg: Config, w: World, backoff: Backoff, takes: Takes,
                                         order: seq<State>, claimed: seq<Id>, room: nat)
    requires TakesAre(cfg, w, backoff, takes) && |claimed| + room == cfg.concurrency
    requires forall i | 0 <= i < |order| :: NoGate(order[i])
    ensures |ClaimFrom(cfg, w, backoff, order, claimed)| + RoomLeft(takes, order, room) == cfg.concurrency
    decreases |order|
  {
    if order != [] {
      var take := TakeFor(cfg, w, backoff, order[0], claimed);
      assert |take| == takes(order[0], room);
      UngatedClaims(cfg, w, backoff, takes, order[1..], claimed + take, Less(room, |take|));
    }
  }

  lemma {:induction false} OnlyFrom(cfg: Config, w: World, backoff: Backoff, order: seq<State>, claimed: seq<Id>)
    ensures forall id | id in ClaimFrom(cfg, w, backoff, order, claimed) && id !in claimed ::
      id in w.rows && w.rows[id].state in order
    decreases |order|
  {
    if order != [] {
      OnlyFrom(cfg, w, backoff, order[1..], claimed + TakeFor(cfg, w, backoff, order[0], claimed));
    }
  }

  /** ... and admit nothing to Archivematica. */
  lemma UngatedQuiet(cfg: Config, w: World, backoff: Backoff, order: seq<State>, r: seq<Id>)
    requires r == ClaimFrom(cfg, w, backoff, order, []) && forall i | 0 <= i < |order| :: NoGate(order[i])
    ensures forall id | id in r :: id in w.rows && !IsAmActive(w.rows[id].state)
  {
    OnlyFrom(cfg, w, backoff, order, []);
  }

  lemma {:induction false} LaterAddsNone(cfg: Config, w: World, backoff: Backoff, order: seq<State>, claimed: seq<Id>, st: State)
    requires st !in order
    ensures forall id | id in ClaimFrom(cfg, w, backoff, order, claimed) && id !in claimed ::
      id in w.rows && w.rows[id].state != st
    decreases |order|
  {
    if order != [] {
      assert order[0] in order;
      LaterAddsNone(cfg, w, backoff, order[1..], claimed + TakeFor(cfg, w, backoff, order[0], claimed), st);
    }
  }

  lemma NotInOrder(cfg: Config, w: World, backoff: Backoff, order: seq<State>, id: Id)
    requires id in w.rows && w.rows[id].state !in order
    ensures id !in ClaimFrom(cfg, w, backoff, order, [])
  {
    LaterAddsNone(cfg, w, backoff, order, [], w.rows[id].state);
  }

  lemma OrderLeavesOut(cfg: Config)
    ensures TransferApproved !in cfg.ClaimOrder()
  {
  }

  /** A row left at TransferApproved by a crash is claimed by no tick. */
  lemma ApprovedRowIsStranded(cfg: Config, w: World, backoff: Backoff, id: Id)
    requires w.Open(id) && w.rows[id].state.TransferApproved?
    ensures id !in Claim(cfg, w, backoff)
  {
    OrderLeavesOut(cfg);
    NotInOrder(cfg, w, backoff, cfg.ClaimOrder(), id);
  }

  /** The state's rows in the claim are those taken when its turn comes. */
  lemma ClaimedAtTurn(cfg: Config, w: World, backoff: Backoff, early: seq<State>, st: State, late: seq<State>)
    requires cfg.ClaimOrder() == early + ([st] + late) && st !in early && st !in late
    ensures var before := ClaimFrom(cfg, w, backoff, early, []);
      ClaimsOne(cfg, w, backoff, st)
      <==> TakeFor(cfg, w, backoff, st, before) != []
  {
    var before := ClaimFrom(cfg, w, backoff, early, []);
    var take := TakeFor(cfg, w, backoff, st, before);
    var after := before + take;
    ClaimSplit(cfg, w, backoff, early, [st] + late, []);
    assert ([st] + late)[1..] == late;
    LaterAddsNone(cfg, w, backoff, early, [], st);
    LaterAddsNone(cfg, w, backoff, late, after, st);
    ClaimKeeps(cfg, w, backoff, late, after);
    if take != [] {
      assert after[|before|] == take[0] && take[0] in take;
      assert Claim(cfg, w, backoff)[|before|] == take[0];
    }
  }

  lemma FreeIsTaken(w: World, one: bool, ids: seq<Id>)
    ensures Pick(w, one, ids) != [] <==> exists a :: a in ids && a !in w.controllers
  {
    var free := NotInFlight(w, ids);
    if free != [] { assert free[0] in free; }
  }

  lemma EntryTake(cfg: Config, w: World, backoff: Backoff, before: seq<Id>, room: nat)
    requires Interleaved(cfg) && |before| + room == cfg.concurrency
    requires forall id | id in before :: id in w.rows && !IsAmActive(w.rows[id].state)
    ensures TakeFor(cfg, w, backoff, UploadComplete, before) != [] <==>
      && w.am == {} && NoneOpen(w, IsAmInside) && SomeFree(w, UploadComplete, room)
  {
    EntryGatedIff(cfg, w, before);
    if w.am == {} && NoneOpen(w, IsAmInside) {
      OpenTake(cfg, w, backoff, UploadComplete, before, room);
      FreeIsTaken(w, true, ListQueue(w.rows, UploadComplete, room));
    }
  }

  lemma EntryGatedIff(cfg: Config, w: World, before: seq<Id>)
    requires Interleaved(cfg) && forall id | id in before :: id in w.rows && !IsAmActive(w.rows[id].state)
    ensures Gated(cfg, w, UploadComplete, before) <==> !(w.am == {} && NoneOpen(w, IsAmInside))
    ensures OnePerTick(cfg, UploadComplete)
  {
    CountZero(w.rows, IsAmInside);
    forall i | 0 <= i < |before| ensures !IsAmActive(w.rows[before[i]].state) { assert before[i] in before; }
  }

  /** ENTRY, exactly. In interleaved mode a tick admits a package to Archivematica if and only if
      nothing is dispatched there, no open row rests inside, and a free upload is on the page that
      the room left by the four earlier states allows. */
  lemma EntryAdmittedIff(cfg: Config, w: World, backoff: Backoff)
    requires Interleaved(cfg)
    ensures ClaimsOne(cfg, w, backoff, UploadComplete) <==>
      && w.am == {} && NoneOpen(w, IsAmInside) && SomeFree(w, UploadComplete, EntryRoom(cfg, w))
  {
    EntryPosition(READY_STATES[5..]);
    EntryAdmittedAfter(cfg, w, backoff, BEFORE_ENTRY, READY_STATES[5..]);
  }

  lemma EntryAdmittedAfter(cfg: Config, w: World, backoff: Backoff, early: seq<State>, late: seq<State>)
    requires Interleaved(cfg) && cfg.ClaimOrder() == early + ([UploadComplete] + late)
    requires UploadComplete !in early && UploadComplete !in late && forall i | 0 <= i < |early| :: NoGate(early[i])
    ensures ClaimsOne(cfg, w, backoff, UploadComplete) <==>
      && w.am == {} && NoneOpen(w, IsAmInside) && SomeFree(w, UploadComplete, RoomLeft(FreeOnPage(w), early, cfg.concurrency))
  {
    var before := ClaimFrom(cfg, w, backoff, early, []);
    ClaimedAtTurn(cfg, w, backoff, early, UploadComplete, late);
    EntryTurn(cfg, w, backoff, early, before);
  }

  lemma EntryTurn(cfg: Config, w: World, backoff: Backoff, early: seq<State>, before: seq<Id>)
    requires Interleaved(cfg) && before == ClaimFrom(cfg, w, backoff, early, [])
    requires forall i | 0 <= i < |early| :: NoGate(early[i])
    ensures TakeFor(cfg, w, backoff, UploadComplete, before) != [] <==>
      && w.am == {} && NoneOpen(w, IsAmInside) && SomeFree(w, UploadComplete, RoomLeft(FreeOnPage(w), early, cfg.concurrency))
  {
    forall st: State, claimed: seq<Id>, room: nat | NoGate(st) && |claimed| + room == cfg.concurrency
      ensures |TakeFor(cfg, w, backoff, st, claimed)| == FreeOnPage(w)(st, room)
    {
      UngatedTake(cfg, w, backoff, st, claimed, room);
    }
    UngatedClaims(cfg, w, backoff, FreeOnPage(w), early, [], cfg.concurrency);
    UngatedQuiet(cfg, w, backoff, early, before);
    EntryTake(cfg, w, backoff, before, RoomLeft(FreeOnPage(w), early, cfg.concurrency));
  }

  lemma EntryPosition(late: seq<State>)
    requires late == READY_STATES[5..]
    ensures READY_STATES == BEFORE_ENTRY + ([UploadComplete] + late)
    ensures UploadComplete !in BEFORE_ENTRY && UploadComplete !in late
    ensures forall i | 0 <= i < |BEFORE_ENTRY| :: NoGate(BEFORE_ENTRY[i])
  {
  }

  // --- serial mode ----------------------------------------------------------------------------

  lemma PendingPosition(early: seq<State>, late: seq<State>)
    requires early == SERIAL_CLAIM_ORDER[..12] && late == SERIAL_CLAIM_ORDER[13..]
    ensures SERIAL_CLAIM_ORDER == early + ([Pending] + late)
    ensures Pending !in early && Pending !in late
    ensures forall st | st in early :: IsMid(st)
  {
  }

  lemma NothingMid(cfg: Config, w: World, backoff: Backoff, early: seq<State>)
    requires NoneOpen(w, IsMid) && forall st | st in early :: IsMid(st)
    ensures ClaimFrom(cfg, w, backoff, early, []) == []
  {
    forall st | st in early ensures Matching(w.rows, st) == {} {
      assert forall id | id in Matching(w.rows, st) :: w.Open(id);
    }
    NothingToTake(cfg, w, backoff, early, []);
  }

  lemma PendingTake(cfg: Config, w: World, backoff: Backoff)
    requires cfg.Serial()
    ensures TakeFor(cfg, w, backoff, Pending, []) != [] <==>
      && w.pipeline == {} && NoneOpen(w, IsMid) && SomeFree(w, Pending, cfg.concurrency)
  {
    CountZero(w.rows, IsMid);
    FreeIsTaken(w, true, ListQueue(w.rows, Pending, cfg.concurrency));
  }

  /** A NEW PACKAGE, exactly. In serial mode a tick admits a pending package if and only if nothing
      of stages 1 to 5 is dispatched, no open row is mid-pipeline, and one of the newest
      `concurrency` pending rows is free. */
  lemma PendingAdmittedIff(cfg: Config, w: World, backoff: Backoff)
    requires cfg.Serial()
    ensures ClaimsOne(cfg, w, backoff, Pending) <==>
      && w.pipeline == {} && NoneOpen(w, IsMid) && SomeFree(w, Pending, cfg.concurrency)
  {
    var early, late := SERIAL_CLAIM_ORDER[..12], SERIAL_CLAIM_ORDER[13..];
    PendingPosition(early, late);
    ClaimedAtTurn(cfg, w, backoff, early, Pending, late);
    CountZero(w.rows, IsMid);
    if NoneOpen(w, IsMid) {
      NothingMid(cfg, w, backoff, early);
      PendingTake(cfg, w, backoff);
    }
  }

  // --- the windows ----------------------------------------------------------------------------

  predicate ApprovedOpen(w: World) {
    exists b :: b in w.rows && w.Open(b) && w.rows[b].state.TransferApproved?
  }

  /** What can be read off the table and the memory before a tick that admits past an approved row. */
  ghost predicate AdmitsPastApproved(cfg: Config, w: World) {
    && ApprovedOpen(w)
    && if cfg.Serial()
       then w.pipeline == {} && NoneOpen(w, IsMid) && SomeFree(w, Pending, cfg.concurrency)
       else w.am == {} && NoneOpen(w, IsAmInside) && SomeFree(w, UploadComplete, EntryRoom(cfg, w))
  }

  /** The window with TransferApproved counted in, in either mode. */
  function Approved(cfg: Config): Gate {
    if cfg.Serial() then SerialApprovedGate else ApprovedGate
  }

  predicate RestsOne(g: Gate, w: World) {
    exists b :: b in w.rows && Resting(g, w, b)
  }

  lemma OnlyApprovedRests(g: Gate, w: World, inside: State -> bool)
    requires NoneOpen(w, inside) && forall st: State :: Inside(g, st) <==> inside(st) || st.TransferApproved?
    ensures RestsOne(g, w) <==> ApprovedOpen(w)
  {
    if b :| b in w.rows && Resting(g, w, b) {
      assert w.rows[b].state.TransferApproved?;
    }
    if b :| b in w.rows && w.Open(b) && w.rows[b].state.TransferApproved? {
      assert Resting(g, w, b);
    }
  }

  lemma PastIs(g: Gate, cfg: Config, w: World, backoff: Backoff, entry: State)
    requires forall st: State :: Holds(g, st) && !Inside(g, st) <==> st == entry
    ensures AdmitsPast(g, cfg, w, backoff) <==> ClaimsOne(cfg, w, backoff, entry) && RestsOne(g, w)
  {
  }

  lemma SerialPast(cfg: Config, w: World, backoff: Backoff)
    requires cfg.Serial()
    ensures AdmitsPast(SerialApprovedGate, cfg, w, backoff) <==> AdmitsPastApproved(cfg, w)
  {
    PastIs(SerialApprovedGate, cfg, w, backoff, Pending);
    PendingAdmittedIff(cfg, w, backoff);
    if NoneOpen(w, IsMid) { OnlyApprovedRests(SerialApprovedGate, w, IsMid); }
  }

  lemma EntryPast(cfg: Config, w: World, backoff: Backoff)
    requires Interleaved(cfg)
    ensures AdmitsPast(ApprovedGate, cfg, w, backoff) <==> AdmitsPastApproved(cfg, w)
  {
    PastIs(ApprovedGate, cfg, w, backoff, UploadComplete);
    EntryAdmittedIff(cfg, w, backoff);
    if NoneOpen(w, IsAmInside) { OnlyApprovedRests(ApprovedGate, w, IsAmInside); }
  }

  lemma AdmitsPastIff(cfg: Config, w: World, backoff: Backoff)
    requires !cfg.amParallel
    ensures AdmitsPast(Approved(cfg), cfg, w, backoff) <==> AdmitsPastApproved(cfg, w)
  {
    if cfg.Serial() { SerialPast(cfg, w, backoff); } else { EntryPast(cfg, w, backoff); }
  }

  /** THE APPROVED WINDOW, one step, in both modes. With TransferApproved counted as inside, a step
      keeps the window at one package unless it is a tick that admits one past an approved row, or
      a bypassing step with another package inside. */
  lemma ApprovedWindowIff(cfg: Config, w: World, l: Label)
    requires w.Valid() && !cfg.amParallel && Enabled(w, l) && AtMostOne(Occupants(Approved(cfg), w))
    ensures AtMostOne(Occupants(Approved(cfg), Apply(cfg, w, l))) <==>
      && (Bypasses(Approved(cfg), w, l) ==> Occupants(Approved(cfg), w) <= {l.id})
      && !(l.Tick? && AdmitsPastApproved(cfg, w))
  {
    StepKeepsGate(Approved(cfg), cfg, w, l);
    if l.Tick? { AdmitsPastIff(cfg, w, l.backoff); }
  }

  /** On runs without such a tick and without a bypass the window holds. */
  lemma {:induction false} RunKeepsApproved(cfg: Config, worlds: seq<World>, labels: seq<Label>, k: nat)
    requires IsRun(cfg, worlds, labels) && k < |worlds| && !cfg.amParallel
    requires NeverBypasses(Approved(cfg), cfg, worlds, labels)
    requires forall i | 0 <= i < |labels| && labels[i].Tick? :: !AdmitsPastApproved(cfg, worlds[i])
    ensures worlds[k].Valid() && AtMostOne(Occupants(Approved(cfg), worlds[k]))
  {
    if k > 0 {
      RunKeepsApproved(cfg, worlds, labels, k - 1);
      StepKeepsValid(cfg, worlds[k - 1], labels[k - 1]);
      ApprovedWindowIff(cfg, worlds[k - 1], labels[k - 1]);
    }
  }

  // --- a crash at TransferApproved -------------------------------------------------------------

  /** The open rows in these states, state by state. */
  function Waiting(rows: map<Id, Row>, order: seq<State>): nat
    decreases |order|
  {
    if order == [] then 0 else |Matching(rows, order[0])| + Waiting(rows, order[1..])
  }

  lemma {:induction false} NoneInFlight(w: World, ids: seq<Id>)
    requires w.controllers == map[]
    ensures NotInFlight(w, ids) == ids
    decreases |ids|
  {
    if ids != [] { NoneInFlight(w, ids[1..]); }
  }

  lemma PageSize(w: World, st: State, room: nat)
    ensures |ListQueue(w.rows, st, room)| == Min(room, |Matching(w.rows, st)|)
  {
  }

  lemma FreeWithoutFlights(w: World, st: State, room: nat)
    requires w.controllers == map[]
    ensures FreeOnPage(w)(st, room) == Min(room, |Matching(w.rows, st)|)
  {
    NoneInFlight(w, ListQueue(w.rows, st, room));
    PageSize(w, st, room);
  }

  lemma {:induction false} RoomWithout(rows: map<Id, Row>, takes: Takes, order: seq<State>, room: nat)
    requires forall st: State, n: nat :: takes(st, n) == Min(n, |Matching(rows, st)|)
    ensures RoomLeft(takes, order, room) == Max(0, room - Waiting(rows, order))
    decreases |order|
  {
    if order != [] { RoomWithout(rows, takes, order[1..], Less(room, takes(order[0], room))); }
  }

  lemma SomeFreeIff(w: World, st: State, room: nat)
    requires w.controllers == map[]
    ensures SomeFree(w, st, room) <==> room > 0 && Matching(w.rows, st) != {}
  {
    PageSize(w, st, room);
    var page := ListQueue(w.rows, st, room);
    if room > 0 && Matching(w.rows, st) != {} { assert page[0] in page; }
  }

  lemma OnlyApprovedInside(cfg: Config, w: World, b: Id, inside: State -> bool)
    requires AtMostOne(Occupants(Approved(cfg), w)) && w.Open(b) && w.rows[b].state.TransferApproved?
    requires !inside(TransferApproved) && forall st | inside(st) :: Inside(Approved(cfg), st)
    ensures NoneOpen(w, inside)
  {
    assert Resting(Approved(cfg), w, b) && b in Occupants(Approved(cfg), w);
    forall id | w.Open(id) ensures !inside(w.rows[id].state) {
      assert inside(w.rows[id].state) ==> Resting(Approved(cfg), w, id);
      assert Resting(Approved(cfg), w, id) ==> id in Occupants(Approved(cfg), w);
    }
  }

  /** CRASH. When the package in the window is at TransferApproved, a crash and one tick put another
      in beside it exactly when one waits: in serial mode a pending one, in interleaved mode an
      uploaded one with fewer than `concurrency` open rows in the four states before it. */
  lemma CrashAtApprovedAdmitsIff(cfg: Config, w: World, backoff: Backoff, b: Id)
    requires w.Valid() && !cfg.amParallel && AtMostOne(Occupants(Approved(cfg), w))
    requires w.Open(b) && w.rows[b].state.TransferApproved?
    ensures !AtMostOne(Occupants(Approved(cfg), Apply(cfg, Apply(cfg, w, Crash), Tick(backoff)))) <==>
      if cfg.Serial()
      then cfg.concurrency > 0 && Matching(w.rows, Pending) != {}
      else cfg.concurrency > Waiting(w.rows, BEFORE_ENTRY) && Matching(w.rows, UploadComplete) != {}
  {
    var w1 := Apply(cfg, w, Crash);
    StepKeepsGate(Approved(cfg), cfg, w, Crash);
    StepKeepsValid(cfg, w, Crash);
    ApprovedWindowIff(cfg, w1, Tick(backoff));
    if cfg.Serial() { PastAfterCrashSerial(cfg, w1, b); } else { PastAfterCrash(cfg, w1, b); }
  }

  lemma PastAfterCrashSerial(cfg: Config, w: World, b: Id)
    requires w.Valid() && w.controllers == map[] && cfg.Serial() && AtMostOne(Occupants(Approved(cfg), w))
    requires w.Open(b) && w.rows[b].state.TransferApproved?
    ensures AdmitsPastApproved(cfg, w) <==> cfg.concurrency > 0 && Matching(w.rows, Pending) != {}
  {
    OnlyApprovedInside(cfg, w, b, IsMid);
    SomeFreeIff(w, Pending, cfg.concurrency);
  }

  lemma EntryRoomWithoutFlights(cfg: Config, w: World)
    requires w.controllers == map[]
    ensures EntryRoom(cfg, w) == Max(0, cfg.concurrency - Waiting(w.rows, BEFORE_ENTRY))
  {
    forall st: State, n: nat ensures FreeOnPage(w)(st, n) == Min(n, |Matching(w.rows, st)|) { FreeWithoutFlights(w, st, n); }
    RoomWithout(w.rows, FreeOnPage(w), BEFORE_ENTRY, cfg.concurrency);
  }

  lemma PastAfterCrash(cfg: Config, w: World, b: Id)
    requires w.Valid() && w.controllers == map[] && Interleaved(cfg) && AtMostOne(Occupants(Approved(cfg), w))
    requires w.Open(b) && w.rows[b].state.TransferApproved?
    ensures AdmitsPastApproved(cfg, w) <==>
            cfg.concurrency > Waiting(w.rows, BEFORE_ENTRY) && Matching(w.rows, UploadComplete) != {}
  {
    OnlyApprovedInside(cfg, w, b, IsAmInside);
    SomeFreeIff(w, UploadComplete, EntryRoom(cfg, w));
    EntryRoomWithoutFlights(cfg, w);
  }
}
