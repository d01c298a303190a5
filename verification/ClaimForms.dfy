/** What a tick claims, read off the table, the memory and the room alone: which states' rows, how
    many of each, and in which order. The claim loop with its gates comes to exactly this. */
module ClaimForms {
  import opened Basics
  import opened PipelineStates
  import opened IngestGates
  import opened GateInvariants
  import opened GateTheorems
  import opened ApprovedWindow

  // --- the closed form ------------------------------------------------------------------------

  /** The free rows that a query for a state brings under a limit. */
  type Page = (State, nat) -> seq<Id>

  /** The rows on a state's page that are not in flight. */
  function FreeRows(w: World, backoff: Backoff): Page {
    (st: State, room: nat) => NotInFlight(w, Candidates(w.rows, backoff, st, room))
  }

  /** State after state, every free row of its page, while there is room. */
  function Every(page: Page, order: seq<State>, room: nat): seq<Id>
    decreases |order|
  {
    if order == [] then []
    else
      var free := page(order[0], room);
      free + Every(page, order[1..], Less(room, |free|))
  }

  /** One row: the first free one of the first state that has any on its page. */
  function One(page: Page, order: seq<State>, room: nat): seq<Id>
    decreases |order|
  {
    if order == [] then []
    else
      var free := page(order[0], room);
      if free != [] then [free[0]] else One(page, order[1..], room)
  }

  const LATEST_FIRST: seq<State> := [
    CreatingRepositoryRecord, MetadataProcessed, WaitingForDuracloud, IngestComplete,
    IngestInProgress, TransferComplete, TransferInProgress, TransferStarted, UploadComplete,
    Uploading, QaComplete, ProcessingMetadata
  ]

  const UPLOADING: seq<State> := [Pending, ProcessingMetadata, QaComplete, Uploading]
  const INSIDE: seq<State> := [TransferStarted, TransferInProgress, TransferComplete, IngestInProgress]
  const FINISHING: seq<State> := [IngestComplete, WaitingForDuracloud, MetadataProcessed, CreatingRepositoryRecord]

  /** The claims of one package at a time: the package under way, or else a new one. */
  function SerialPackages(w: World, page: Page, room: nat): seq<Id> {
    if w.pipeline != {} then []
    else One(page, if CountIn(w.rows, IsMid) > 0 then LATEST_FIRST else [Pending], room)
  }

  /** The claim for Archivematica: the package inside, or else a new one. */
  function Transfers(w: World, page: Page, room: nat): seq<Id> {
    if w.am != {} then []
    else One(page, if CountIn(w.rows, IsAmInside) > 0 then INSIDE else [UploadComplete], room)
  }

  function InterleavedPackages(w: World, page: Page, room: nat): seq<Id> {
    var early := Every(page, UPLOADING, room);
    var transfers := Transfers(w, page, Less(room, |early|));
    early + transfers + Every(page, FINISHING, Less(room, |early| + |transfers|))
  }

  /** The claims in stages 1 to 5. */
  function Packages(cfg: Config, w: World, page: Page): seq<Id> {
    if cfg.Serial() then SerialPackages(w, page, cfg.concurrency)
    else if cfg.amParallel then Every(page, UPLOADING + ([UploadComplete] + INSIDE) + FINISHING, cfg.concurrency)
    else InterleavedPackages(w, page, cfg.concurrency)
  }

  /** The claims in stage 6: one copy at a time, the one under way before a new one. */
  function Copies(cfg: Config, w: World, page: Page, room: nat): seq<Id> {
    if !cfg.stage6Serial then
      Every(page, if cfg.Serial() then [AipStoreInProgress, AipStorePending] else [AipStorePending, AipStoreInProgress], room)
    else if w.stage6 != {} then []
    else One(page, if CountIn(w.rows, IsCopying) > 0 then [AipStoreInProgress] else [AipStorePending], room)
  }

  /** The whole claim. */
  function Claims(cfg: Config, w: World, page: Page): seq<Id> {
    Packages(cfg, w, page) + Copies(cfg, w, page, Less(cfg.concurrency, |Packages(cfg, w, page)|))
  }

  /** The room the packages leave to the copies. */
  function CopyRoom(cfg: Config, w: World, backoff: Backoff): nat {
    Less(cfg.concurrency, |Packages(cfg, w, FreeRows(w, backoff))|)
  }

  // --- the claim loop over a run of states -------------------------------------------------------

  /** What a state adds, gate and cap granted. */
  ghost predicate AddsAt(cfg: Config, w: World, backoff: Backoff, st: State, claimed: seq<Id>, room: nat, free: seq<Id>) {
    && |free| <= room
    && TakeFor(cfg, w, backoff, st, claimed) ==
         if Gated(cfg, w, st, claimed) then []
         else if OnePerTick(cfg, st) then (if free == [] then [] else [free[0]])
         else free
  }

  ghost predicate Adds(cfg: Config, w: World, backoff: Backoff, page: Page) {
    forall st: State, claimed: seq<Id>, room: nat | |claimed| + room == cfg.concurrency ::
      AddsAt(cfg, w, backoff, st, claimed, room, page(st, room))
  }

  lemma FirstOnly<T>(s: seq<T>)
    ensures Prefix(s, 1) == if s == [] then [] else [s[0]]
  {
  }

  lemma {:induction false} PickForms(w: World, one: bool, batch: seq<Id>, free: seq<Id>)
    requires free == NotInFlight(w, batch)
    ensures Pick(w, one, batch) == if one then (if free == [] then [] else [free[0]]) else free
  {
    FirstOnly(free);
  }

  lemma {:induction false} FullAdds(cfg: Config, w: World, backoff: Backoff, st: State, claimed: seq<Id>, batch: seq<Id>)
    requires |claimed| == cfg.concurrency && batch == Candidates(w.rows, backoff, st, 0)
    ensures TakeFor(cfg, w, backoff, st, claimed) == [] && batch == []
  {
  }

  lemma {:induction false} OpenAdds(cfg: Config, w: World, backoff: Backoff, st: State, claimed: seq<Id>, room: nat)
    requires |claimed| + room == cfg.concurrency && room > 0 && !Gated(cfg, w, st, claimed)
    ensures TakeFor(cfg, w, backoff, st, claimed) == Pick(w, OnePerTick(cfg, st), Candidates(w.rows, backoff, st, room))
  {
    assert cfg.concurrency - |claimed| == room;
  }

  lemma {:induction false} ShutAdds(cfg: Config, w: World, backoff: Backoff, st: State, claimed: seq<Id>)
    requires Gated(cfg, w, st, claimed)
    ensures TakeFor(cfg, w, backoff, st, claimed) == []
  {
  }

  lemma {:induction false} AddsRow(cfg: Config, w: World, backoff: Backoff, st: State, claimed: seq<Id>, room: nat, batch: seq<Id>)
    requires |claimed| + room == cfg.concurrency && batch == Candidates(w.rows, backoff, st, room)
    ensures AddsAt(cfg, w, backoff, st, claimed, room, NotInFlight(w, batch))
  {
    if Gated(cfg, w, st, claimed) {
      ShutAdds(cfg, w, backoff, st, claimed);
    } else if room == 0 {
      FullAdds(cfg, w, backoff, st, claimed, batch);
    } else {
      OpenAdds(cfg, w, backoff, st, claimed, room);
      PickForms(w, OnePerTick(cfg, st), batch, NotInFlight(w, batch));
    }
  }

  lemma LoopAdds(cfg: Config, w: World, backoff: Backoff)
    ensures Adds(cfg, w, backoff, FreeRows(w, backoff))
  {
    forall st: State, claimed: seq<Id>, room: nat | |claimed| + room == cfg.concurrency
      ensures AddsAt(cfg, w, backoff, st, claimed, room, FreeRows(w, backoff)(st, room))
    {
      AddsRow(cfg, w, backoff, st, claimed, room, Candidates(w.rows, backoff, st, room));
    }
  }

  /** No gate and no cap of one applies to the state. */
  predicate Unbounded(cfg: Config, st: State) {
    && !(cfg.stage6Serial && IsStage6(st))
    && !(cfg.Serial() && IsPipeline(st))
    && !(!cfg.amParallel && IsAmActive(st))
  }

  lemma UnboundedIsOpen(cfg: Config, w: World, st: State, claimed: seq<Id>)
    requires Unbounded(cfg, st)
    ensures !Gated(cfg, w, st, claimed) && !OnePerTick(cfg, st)
  {
  }

  lemma {:induction false} TakesAll(cfg: Config, w: World, backoff: Backoff, st: State, claimed: seq<Id>, room: nat, free: seq<Id>)
    requires Unbounded(cfg, st) && AddsAt(cfg, w, backoff, st, claimed, room, free)
    ensures TakeFor(cfg, w, backoff, st, claimed) == free && |free| <= room
  {
    UnboundedIsOpen(cfg, w, st, claimed);
  }

  lemma {:induction false} EveryStep(cfg: Config, w: World, backoff: Backoff, page: Page,
                                     order: seq<State>, claimed: seq<Id>, room: nat, free: seq<Id>)
    requires Adds(cfg, w, backoff, page) && |claimed| + room == cfg.concurrency
    requires order != [] && Unbounded(cfg, order[0]) && free == page(order[0], room)
    ensures ClaimFrom(cfg, w, backoff, order, claimed) == ClaimFrom(cfg, w, backoff, order[1..], claimed + free)
    ensures |free| <= room
  {
    assert AddsAt(cfg, w, backoff, order[0], claimed, room, free);
    TakesAll(cfg, w, backoff, order[0], claimed, room, free);
  }

  lemma Regroup(a: seq<Id>, b: seq<Id>, c: seq<Id>)
    ensures (a + b) + c == a + (b + c)
  {
  }

  type Loop = (seq<State>, seq<Id>) -> seq<Id>

  /** A loop that adds each state's whole page, as long as the states are of this kind. */
  ghost predicate AddsPages(loop: Loop, page: Page, kind: State -> bool, c: nat) {
    && (forall claimed: seq<Id> :: loop([], claimed) == claimed)
    && forall order: seq<State>, claimed: seq<Id>, room: nat | order != [] && kind(order[0]) && |claimed| + room == c ::
         loop(order, claimed) == loop(order[1..], claimed + page(order[0], room)) && |page(order[0], room)| <= room
  }

  lemma {:induction false} EveryIsAdded(loop: Loop, page: Page, kind: State -> bool, c: nat,
                                        order: seq<State>, claimed: seq<Id>, room: nat)
    requires AddsPages(loop, page, kind, c) && |claimed| + room == c && forall i | 0 <= i < |order| :: kind(order[i])
    ensures loop(order, claimed) == claimed + Every(page, order, room) && |Every(page, order, room)| <= room
    decreases |order|
  {
    if order == [] {
      assert claimed + [] == claimed;
    } else {
      var free := page(order[0], room);
      assert loop(order, claimed) == loop(order[1..], claimed + free) && |free| <= room;
      EveryIsAdded(loop, page, kind, c, order[1..], claimed + free, room - |free|);
      Regroup(claimed, free, Every(page, order[1..], room - |free|));
    }
  }

  lemma {:induction false} EveryIsClaimed(cfg: Config, w: World, backoff: Backoff, page: Page,
                                          order: seq<State>, claimed: seq<Id>, room: nat)
    requires Adds(cfg, w, backoff, page) && |claimed| + room == cfg.concurrency
    requires forall i | 0 <= i < |order| :: Unbounded(cfg, order[i])
    ensures ClaimFrom(cfg, w, backoff, order, claimed) == claimed + Every(page, order, room)
    ensures |Every(page, order, room)| <= room
  {
    var loop := (o: seq<State>, cl: seq<Id>) => ClaimFrom(cfg, w, backoff, o, cl);
    var kind := (st: State) => Unbounded(cfg, st);
    forall o: seq<State>, cl: seq<Id>, r: nat | o != [] && kind(o[0]) && |cl| + r == cfg.concurrency
      ensures loop(o, cl) == loop(o[1..], cl + page(o[0], r)) && |page(o[0], r)| <= r
    {
      EveryStep(cfg, w, backoff, page, o, cl, r, page(o[0], r));
    }
    EveryIsAdded(loop, page, kind, cfg.concurrency, order, claimed, room);
  }

  ghost predicate AllGated(cfg: Config, w: World, order: seq<State>, claimed: seq<Id>) {
    forall i | 0 <= i < |order| :: Gated(cfg, w, order[i], claimed)
  }

  lemma {:induction false} NothingIsClaimed(cfg: Config, w: World, backoff: Backoff, order: seq<State>, claimed: seq<Id>)
    requires AllGated(cfg, w, order, claimed)
    ensures ClaimFrom(cfg, w, backoff, order, claimed) == claimed
    decreases |order|
  {
    if order != [] {
      assert Gated(cfg, w, order[0], claimed);
      assert claimed + [] == claimed;
      NothingIsClaimed(cfg, w, backoff, order[1..], claimed);
    }
  }

  /** The states share a gate of class p: open now, and shut once a row of the class is admitted. */
  ghost predicate SharesGate(cfg: Config, w: World, order: seq<State>, claimed: seq<Id>, p: State -> bool) {
    forall i | 0 <= i < |order| ::
      && p(order[i]) && OnePerTick(cfg, order[i]) && !Gated(cfg, w, order[i], claimed)
      && forall more: seq<Id> | Admitted(w.rows, more, p) :: Gated(cfg, w, order[i], more)
  }

  lemma {:induction false} TakenIsAdmitted(cfg: Config, w: World, backoff: Backoff, st: State, claimed: seq<Id>, p: State -> bool)
    requires p(st)
    ensures var take := TakeFor(cfg, w, backoff, st, claimed); take != [] ==> Admitted(w.rows, claimed + take, p)
  {
    var take := TakeFor(cfg, w, backoff, st, claimed);
    if take != [] { assert (claimed + take)[|claimed|] == take[0] && take[0] in take; }
  }

  lemma {:induction false} OneIsClaimed(cfg: Config, w: World, backoff: Backoff, page: Page,
                                        order: seq<State>, claimed: seq<Id>, room: nat, p: State -> bool)
    requires Adds(cfg, w, backoff, page) && |claimed| + room == cfg.concurrency && SharesGate(cfg, w, order, claimed, p)
    ensures ClaimFrom(cfg, w, backoff, order, claimed) == claimed + One(page, order, room)
    ensures |One(page, order, room)| <= Min(1, room)
    decreases |order|
  {
    assert claimed + [] == claimed;
    if order != [] {
      var free := page(order[0], room);
      var take := TakeFor(cfg, w, backoff, order[0], claimed);
      assert AddsAt(cfg, w, backoff, order[0], claimed, room, free);
      if free == [] {
        OneIsClaimed(cfg, w, backoff, page, order[1..], claimed, room, p);
      } else {
        TakenIsAdmitted(cfg, w, backoff, order[0], claimed, p);
        assert AllGated(cfg, w, order[1..], claimed + take);
        NothingIsClaimed(cfg, w, backoff, order[1..], claimed + take);
      }
    }
  }

  // --- the three gates ---------------------------------------------------------------------------

  /** None of these rows is in a state of the class. */
  ghost predicate NoneOf(w: World, claimed: seq<Id>, p: State -> bool) {
    forall id | id in claimed :: id in w.rows && !p(w.rows[id].state)
  }

  lemma NotAdmitted(w: World, claimed: seq<Id>, p: State -> bool)
    requires NoneOf(w, claimed, p)
    ensures !Admitted(w.rows, claimed, p)
  {
    forall i | 0 <= i < |claimed| ensures !p(w.rows[claimed[i]].state) { assert claimed[i] in claimed; }
  }

  lemma CopyGateIs(cfg: Config, w: World, claimed: seq<Id>)
    requires cfg.stage6Serial && NoneOf(w, claimed, IsStage6)
    ensures Gated(cfg, w, AipStoreInProgress, claimed) <==> w.stage6 != {}
    ensures Gated(cfg, w, AipStorePending, claimed) <==> w.stage6 != {} || CountIn(w.rows, IsCopying) > 0
    ensures w.stage6 == {} ==> SharesGate(cfg, w, [AipStoreInProgress], claimed, IsStage6)
    ensures w.stage6 == {} && CountIn(w.rows, IsCopying) == 0 ==> SharesGate(cfg, w, [AipStorePending], claimed, IsStage6)
  {
    NotAdmitted(w, claimed, IsStage6);
  }

  lemma SerialGateIs(cfg: Config, w: World)
    requires cfg.Serial()
    ensures forall st | IsMid(st) :: Gated(cfg, w, st, []) <==> w.pipeline != {}
    ensures Gated(cfg, w, Pending, []) <==> w.pipeline != {} || CountIn(w.rows, IsMid) > 0
    ensures w.pipeline == {} ==> SharesGate(cfg, w, LATEST_FIRST, [], IsPipeline)
    ensures w.pipeline == {} && CountIn(w.rows, IsMid) == 0 ==> SharesGate(cfg, w, [Pending], [], IsPipeline)
    ensures forall more: seq<Id> | Admitted(w.rows, more, IsPipeline) :: Gated(cfg, w, Pending, more)
  {
    assert forall i | 0 <= i < |LATEST_FIRST| :: IsMid(LATEST_FIRST[i]);
  }

  lemma TransferGateIs(cfg: Config, w: World, claimed: seq<Id>)
    requires Interleaved(cfg) && NoneOf(w, claimed, IsAmActive)
    ensures Gated(cfg, w, UploadComplete, claimed) <==> w.am != {} || CountIn(w.rows, IsAmInside) > 0
    ensures w.am != {} ==> AllGated(cfg, w, INSIDE, claimed)
    ensures w.am == {} ==> SharesGate(cfg, w, INSIDE, claimed, IsAmActive)
    ensures w.am == {} && CountIn(w.rows, IsAmInside) == 0 ==> SharesGate(cfg, w, [UploadComplete], claimed, IsAmActive)
  {
    NotAdmitted(w, claimed, IsAmActive);
    assert forall i | 0 <= i < |INSIDE| :: IsAmInside(INSIDE[i]);
  }

  lemma NoneInside(w: World, p: State -> bool, order: seq<State>)
    requires CountIn(w.rows, p) == 0 && forall st | st in order :: p(st)
    ensures forall st | st in order :: Matching(w.rows, st) == {}
  {
    CountZero(w.rows, p);
    forall st | st in order ensures Matching(w.rows, st) == {} {
      assert forall id | id in Matching(w.rows, st) :: w.Open(id);
    }
  }

  // --- stage 6 -----------------------------------------------------------------------------------

  function CopyOrder(cfg: Config): seq<State> {
    if cfg.Serial() then [AipStoreInProgress, AipStorePending] else [AipStorePending, AipStoreInProgress]
  }

  lemma TwoStates(cfg: Config, w: World, backoff: Backoff, a: State, b: State, claimed: seq<Id>)
    ensures ClaimFrom(cfg, w, backoff, [a, b], claimed) ==
            ClaimFrom(cfg, w, backoff, [b], ClaimFrom(cfg, w, backoff, [a], claimed))
  {
    assert [a, b] == [a] + [b];
    ClaimSplit(cfg, w, backoff, [a], [b], claimed);
  }

  /** While a copy is open in the table, a new one is not considered, in either order. */
  lemma ResumeIsClaimed(cfg: Config, w: World, backoff: Backoff, page: Page, claimed: seq<Id>, room: nat)
    requires Adds(cfg, w, backoff, page) && |claimed| + room == cfg.concurrency
    requires cfg.stage6Serial && NoneOf(w, claimed, IsStage6) && w.stage6 == {} && CountIn(w.rows, IsCopying) > 0
    ensures ClaimFrom(cfg, w, backoff, CopyOrder(cfg), claimed) == claimed + One(page, [AipStoreInProgress], room)
  {
    CopyGateIs(cfg, w, claimed);
    OneIsClaimed(cfg, w, backoff, page, [AipStoreInProgress], claimed, room, IsStage6);
    var after := claimed + One(page, [AipStoreInProgress], room);
    if cfg.Serial() {
      TwoStates(cfg, w, backoff, AipStoreInProgress, AipStorePending, claimed);
      assert Gated(cfg, w, AipStorePending, after);
      NothingIsClaimed(cfg, w, backoff, [AipStorePending], after);
    } else {
      TwoStates(cfg, w, backoff, AipStorePending, AipStoreInProgress, claimed);
      NothingIsClaimed(cfg, w, backoff, [AipStorePending], claimed);
    }
  }

  lemma NewCopyIsClaimed(cfg: Config, w: World, backoff: Backoff, page: Page, claimed: seq<Id>, room: nat)
    requires Adds(cfg, w, backoff, page) && |claimed| + room == cfg.concurrency
    requires cfg.stage6Serial && NoneOf(w, claimed, IsStage6) && w.stage6 == {} && CountIn(w.rows, IsCopying) == 0
    ensures ClaimFrom(cfg, w, backoff, CopyOrder(cfg), claimed) == claimed + One(page, [AipStorePending], room)
  {
    CopyGateIs(cfg, w, claimed);
    OneIsClaimed(cfg, w, backoff, page, [AipStorePending], claimed, room, IsStage6);
    NoneInside(w, IsCopying, [AipStoreInProgress]);
    NothingToTake(cfg, w, backoff, [AipStoreInProgress], claimed);
    NothingToTake(cfg, w, backoff, [AipStoreInProgress], claimed + One(page, [AipStorePending], room));
    TwoStates(cfg, w, backoff, AipStoreInProgress, AipStorePending, claimed);
    TwoStates(cfg, w, backoff, AipStorePending, AipStoreInProgress, claimed);
  }

  lemma CopiesAreClaimed(cfg: Config, w: World, backoff: Backoff, page: Page, claimed: seq<Id>, room: nat)
    requires Adds(cfg, w, backoff, page) && |claimed| + room == cfg.concurrency && NoneOf(w, claimed, IsStage6)
    ensures ClaimFrom(cfg, w, backoff, CopyOrder(cfg), claimed) == claimed + Copies(cfg, w, page, room)
  {
    if !cfg.stage6Serial {
      EveryIsClaimed(cfg, w, backoff, page, CopyOrder(cfg), claimed, room);
    } else if w.stage6 != {} {
      CopyGateIs(cfg, w, claimed);
      NothingIsClaimed(cfg, w, backoff, CopyOrder(cfg), claimed);
      assert claimed + [] == claimed;
    } else if CountIn(w.rows, IsCopying) > 0 {
      ResumeIsClaimed(cfg, w, backoff, page, claimed, room);
    } else {
      NewCopyIsClaimed(cfg, w, backoff, page, claimed, room);
    }
  }

  // --- stages 1 to 5 -----------------------------------------------------------------------------

  /** Nothing of the first run of states is considered. */
  lemma SecondOnly(cfg: Config, w: World, backoff: Backoff, first: seq<State>, second: seq<State>)
    requires ClaimFrom(cfg, w, backoff, first, []) == []
    ensures ClaimFrom(cfg, w, backoff, first + second, []) == ClaimFrom(cfg, w, backoff, second, [])
  {
    ClaimSplit(cfg, w, backoff, first, second, []);
  }

  lemma OneFromNothing(cfg: Config, w: World, backoff: Backoff, page: Page, order: seq<State>, p: State -> bool)
    requires Adds(cfg, w, backoff, page) && SharesGate(cfg, w, order, [], p)
    ensures ClaimFrom(cfg, w, backoff, order, []) == One(page, order, cfg.concurrency)
    ensures |One(page, order, cfg.concurrency)| <= cfg.concurrency
  {
    OneIsClaimed(cfg, w, backoff, page, order, [], cfg.concurrency, p);
    assert [] + One(page, order, cfg.concurrency) == One(page, order, cfg.concurrency);
  }

  lemma FirstOnlyClaims(cfg: Config, w: World, backoff: Backoff, first: seq<State>, second: State, claimed: seq<Id>)
    requires claimed == ClaimFrom(cfg, w, backoff, first, []) && Gated(cfg, w, second, claimed)
    ensures ClaimFrom(cfg, w, backoff, first + [second], []) == claimed
  {
    ClaimSplit(cfg, w, backoff, first, [second], []);
    NothingIsClaimed(cfg, w, backoff, [second], claimed);
  }

  lemma PendingWaits(cfg: Config, w: World, claimed: seq<Id>)
    requires cfg.Serial() && (w.pipeline != {} || CountIn(w.rows, IsMid) > 0)
    ensures Gated(cfg, w, Pending, claimed)
  {
  }

  lemma SerialIsClaimed(cfg: Config, w: World, backoff: Backoff, page: Page)
    requires Adds(cfg, w, backoff, page) && cfg.Serial()
    ensures ClaimFrom(cfg, w, backoff, LATEST_FIRST + [Pending], []) == SerialPackages(w, page, cfg.concurrency)
    ensures |SerialPackages(w, page, cfg.concurrency)| <= cfg.concurrency
  {
    SerialGateIs(cfg, w);
    if w.pipeline != {} {
      assert forall i | 0 <= i < |LATEST_FIRST| :: IsMid(LATEST_FIRST[i]);
      NothingIsClaimed(cfg, w, backoff, LATEST_FIRST, []);
      PendingWaits(cfg, w, []);
      FirstOnlyClaims(cfg, w, backoff, LATEST_FIRST, Pending, []);
    } else if CountIn(w.rows, IsMid) > 0 {
      OneFromNothing(cfg, w, backoff, page, LATEST_FIRST, IsPipeline);
      PendingWaits(cfg, w, One(page, LATEST_FIRST, cfg.concurrency));
      FirstOnlyClaims(cfg, w, backoff, LATEST_FIRST, Pending, One(page, LATEST_FIRST, cfg.concurrency));
    } else {
      NoneInside(w, IsMid, LATEST_FIRST);
      NothingToTake(cfg, w, backoff, LATEST_FIRST, []);
      SecondOnly(cfg, w, backoff, LATEST_FIRST, [Pending]);
      OneFromNothing(cfg, w, backoff, page, [Pending], IsPipeline);
    }
  }

  lemma TransfersAreClaimed(cfg: Config, w: World, backoff: Backoff, page: Page, claimed: seq<Id>, room: nat)
    requires Adds(cfg, w, backoff, page) && |claimed| + room == cfg.concurrency
    requires Interleaved(cfg) && NoneOf(w, claimed, IsAmActive)
    ensures ClaimFrom(cfg, w, backoff, [UploadComplete] + INSIDE, claimed) == claimed + Transfers(w, page, room)
    ensures |Transfers(w, page, room)| <= room
  {
    TransferGateIs(cfg, w, claimed);
    ClaimSplit(cfg, w, backoff, [UploadComplete], INSIDE, claimed);
    assert claimed + [] == claimed;
    if w.am != {} {
      NothingIsClaimed(cfg, w, backoff, [UploadComplete], claimed);
      NothingIsClaimed(cfg, w, backoff, INSIDE, claimed);
    } else if CountIn(w.rows, IsAmInside) > 0 {
      NothingIsClaimed(cfg, w, backoff, [UploadComplete], claimed);
      OneIsClaimed(cfg, w, backoff, page, INSIDE, claimed, room, IsAmActive);
    } else {
      OneIsClaimed(cfg, w, backoff, page, [UploadComplete], claimed, room, IsAmActive);
      NoneInside(w, IsAmInside, INSIDE);
      NothingToTake(cfg, w, backoff, INSIDE, claimed + One(page, [UploadComplete], room));
    }
  }

  /** Rows claimed from states outside a class are outside it. */
  lemma ClaimedOutside(cfg: Config, w: World, backoff: Backoff, order: seq<State>, p: State -> bool)
    requires forall st | st in order :: !p(st)
    ensures NoneOf(w, ClaimFrom(cfg, w, backoff, order, []), p)
  {
    OnlyFrom(cfg, w, backoff, order, []);
  }

  /** A loop over one run of states after another. */
  ghost predicate Splits(loop: Loop) {
    forall a: seq<State>, b: seq<State>, claimed: seq<Id> :: loop(a + b, claimed) == loop(b, loop(a, claimed))
  }

  ghost predicate AddsRows(loop: Loop, order: seq<State>, claimed: seq<Id>, rows: seq<Id>, c: nat) {
    loop(order, claimed) == claimed + rows && |claimed + rows| <= c
  }

  lemma ThreeParts(loop: Loop, c: nat, a: seq<State>, b: seq<State>, d: seq<State>, x: seq<Id>, y: seq<Id>, z: seq<Id>)
    requires Splits(loop) && AddsRows(loop, a, [], x, c) && AddsRows(loop, b, x, y, c) && AddsRows(loop, d, x + y, z, c)
    ensures loop(a + b + d, []) == x + y + z && |x + y + z| <= c
  {
    assert [] + x == x;
    assert loop(a + b, []) == x + y;
  }

  function ClaimLoop(cfg: Config, w: World, backoff: Backoff): Loop {
    (order: seq<State>, claimed: seq<Id>) => ClaimFrom(cfg, w, backoff, order, claimed)
  }

  lemma ClaimSplits(cfg: Config, w: World, backoff: Backoff)
    ensures Splits(ClaimLoop(cfg, w, backoff))
  {
    var loop := ClaimLoop(cfg, w, backoff);
    forall a: seq<State>, b: seq<State>, claimed: seq<Id> ensures loop(a + b, claimed) == loop(b, loop(a, claimed)) {
      ClaimSplit(cfg, w, backoff, a, b, claimed);
    }
  }

  lemma EveryAdds(cfg: Config, w: World, backoff: Backoff, page: Page, order: seq<State>, claimed: seq<Id>, room: nat)
    requires Adds(cfg, w, backoff, page) && |claimed| + room == cfg.concurrency
    requires forall i | 0 <= i < |order| :: Unbounded(cfg, order[i])
    ensures AddsRows(ClaimLoop(cfg, w, backoff), order, claimed, Every(page, order, room), cfg.concurrency)
  {
    EveryIsClaimed(cfg, w, backoff, page, order, claimed, room);
  }

  lemma TransfersAdd(cfg: Config, w: World, backoff: Backoff, page: Page, claimed: seq<Id>, room: nat)
    requires Adds(cfg, w, backoff, page) && |claimed| + room == cfg.concurrency
    requires Interleaved(cfg) && NoneOf(w, claimed, IsAmActive)
    ensures AddsRows(ClaimLoop(cfg, w, backoff), [UploadComplete] + INSIDE, claimed, Transfers(w, page, room), cfg.concurrency)
  {
    TransfersAreClaimed(cfg, w, backoff, page, claimed, room);
  }

  lemma OutsideAdds(cfg: Config, w: World, backoff: Backoff, page: Page, order: seq<State>, x: seq<Id>)
    requires Adds(cfg, w, backoff, page) && x == Every(page, order, cfg.concurrency)
    requires forall i | 0 <= i < |order| :: Unbounded(cfg, order[i]) && !IsAmActive(order[i])
    ensures AddsRows(ClaimLoop(cfg, w, backoff), order, [], x, cfg.concurrency) && NoneOf(w, x, IsAmActive)
  {
    EveryAdds(cfg, w, backoff, page, order, [], cfg.concurrency);
    assert [] + x == x;
    ClaimedOutside(cfg, w, backoff, order, IsAmActive);
  }

  lemma UploadingIsOutside(cfg: Config)
    requires Interleaved(cfg)
    ensures forall i | 0 <= i < |UPLOADING| :: Unbounded(cfg, UPLOADING[i]) && !IsAmActive(UPLOADING[i])
  {
  }

  lemma LateAdds(cfg: Config, w: World, backoff: Backoff, page: Page, claimed: seq<Id>, room: nat)
    requires Adds(cfg, w, backoff, page) && Interleaved(cfg) && |claimed| + room == cfg.concurrency
    ensures AddsRows(ClaimLoop(cfg, w, backoff), FINISHING, claimed, Every(page, FINISHING, room), cfg.concurrency)
  {
    EveryAdds(cfg, w, backoff, page, FINISHING, claimed, room);
  }

  /** The three runs of states of interleaved mode. */
  lemma InterleavedAdds(cfg: Config, w: World, backoff: Backoff, page: Page, x: seq<Id>, y: seq<Id>, z: seq<Id>)
    requires Adds(cfg, w, backoff, page) && Interleaved(cfg)
    requires x == Every(page, UPLOADING, cfg.concurrency) && y == Transfers(w, page, Less(cfg.concurrency, |x|))
    requires z == Every(page, FINISHING, Less(cfg.concurrency, |x| + |y|))
    ensures var loop := ClaimLoop(cfg, w, backoff);
      && AddsRows(loop, UPLOADING, [], x, cfg.concurrency) && AddsRows(loop, [UploadComplete] + INSIDE, x, y, cfg.concurrency)
      && AddsRows(loop, FINISHING, x + y, z, cfg.concurrency)
  {
    UploadingIsOutside(cfg);
    OutsideAdds(cfg, w, backoff, page, UPLOADING, x);
    assert |[] + x| == |x|;
    TransfersAdd(cfg, w, backoff, page, x, Less(cfg.concurrency, |x|));
    LateAdds(cfg, w, backoff, page, x + y, Less(cfg.concurrency, |x| + |y|));
  }

  lemma InterleavedIsClaimed(cfg: Config, w: World, backoff: Backoff, page: Page)
    requires Adds(cfg, w, backoff, page) && Interleaved(cfg)
    ensures ClaimLoop(cfg, w, backoff)(UPLOADING + ([UploadComplete] + INSIDE) + FINISHING, []) ==
            InterleavedPackages(w, page, cfg.concurrency)
    ensures |InterleavedPackages(w, page, cfg.concurrency)| <= cfg.concurrency
  {
    var c := cfg.concurrency;
    var x := Every(page, UPLOADING, c);
    var y := Transfers(w, page, Less(c, |x|));
    var z := Every(page, FINISHING, Less(c, |x| + |y|));
    InterleavedAdds(cfg, w, backoff, page, x, y, z);
    ClaimSplits(cfg, w, backoff);
    ThreeParts(ClaimLoop(cfg, w, backoff), c, UPLOADING, [UploadComplete] + INSIDE, FINISHING, x, y, z);
  }

  function PackageOrder(cfg: Config): seq<State> {
    if cfg.Serial() then LATEST_FIRST + [Pending] else UPLOADING + ([UploadComplete] + INSIDE) + FINISHING
  }

  lemma PackagesAreClaimed(cfg: Config, w: World, backoff: Backoff, page: Page)
    requires Adds(cfg, w, backoff, page)
    ensures ClaimFrom(cfg, w, backoff, PackageOrder(cfg), []) == Packages(cfg, w, page)
    ensures |Packages(cfg, w, page)| <= cfg.concurrency
  {
    if cfg.Serial() {
      SerialIsClaimed(cfg, w, backoff, page);
    } else if cfg.amParallel {
      EveryIsClaimed(cfg, w, backoff, page, PackageOrder(cfg), [], cfg.concurrency);
      var all := Every(page, PackageOrder(cfg), cfg.concurrency);
      assert [] + all == all;
    } else {
      InterleavedIsClaimed(cfg, w, backoff, page);
    }
  }

  lemma OrderIs(cfg: Config)
    ensures cfg.ClaimOrder() == PackageOrder(cfg) + CopyOrder(cfg)
    ensures forall st | st in PackageOrder(cfg) :: !IsStage6(st)
  {
  }

  lemma CopiesCome(cfg: Config, w: World, backoff: Backoff, page: Page)
    requires Adds(cfg, w, backoff, page)
    ensures forall claimed: seq<Id>, room: nat | |claimed| + room == cfg.concurrency && NoneOf(w, claimed, IsStage6) ::
      ClaimFrom(cfg, w, backoff, CopyOrder(cfg), claimed) == claimed + Copies(cfg, w, page, room)
  {
    forall claimed: seq<Id>, room: nat | |claimed| + room == cfg.concurrency && NoneOf(w, claimed, IsStage6)
      ensures ClaimFrom(cfg, w, backoff, CopyOrder(cfg), claimed) == claimed + Copies(cfg, w, page, room)
    {
      CopiesAreClaimed(cfg, w, backoff, page, claimed, room);
    }
  }

  lemma ClaimInParts(cfg: Config, w: World, backoff: Backoff, page: Page, first: seq<State>, second: seq<State>)
    requires cfg.ClaimOrder() == first + second && forall st | st in first :: !IsStage6(st)
    requires ClaimFrom(cfg, w, backoff, first, []) == Packages(cfg, w, page) && |Packages(cfg, w, page)| <= cfg.concurrency
    requires forall claimed: seq<Id>, room: nat | |claimed| + room == cfg.concurrency && NoneOf(w, claimed, IsStage6) ::
      ClaimFrom(cfg, w, backoff, second, claimed) == claimed + Copies(cfg, w, page, room)
    ensures Claim(cfg, w, backoff) == Claims(cfg, w, page)
  {
    ClaimSplit(cfg, w, backoff, first, second, []);
    ClaimedOutside(cfg, w, backoff, first, IsStage6);
  }

  /** THE CLAIM. Whatever the table, the memory and the configuration, a tick claims exactly: in stages
      1 to 5, one row (serial mode), every free row the room allows (parallel transfers), or every free
      row with at most one in Archivematica (interleaved); and then its copies. */
  lemma ClaimIs(cfg: Config, w: World, backoff: Backoff)
    ensures Claim(cfg, w, backoff) == Claims(cfg, w, FreeRows(w, backoff))
    ensures |Packages(cfg, w, FreeRows(w, backoff))| <= cfg.concurrency
  {
    var page := FreeRows(w, backoff);
    LoopAdds(cfg, w, backoff);
    OrderIs(cfg);
    PackagesAreClaimed(cfg, w, backoff, page);
    CopiesCome(cfg, w, backoff, page);
    ClaimInParts(cfg, w, backoff, page, PackageOrder(cfg), CopyOrder(cfg));
  }

  // --- which states are admitted -----------------------------------------------------------------

  /** One of these rows is in the state. */
  predicate HasRow(w: World, ids: seq<Id>, st: State) {
    exists a :: a in ids && a in w.rows && w.rows[a].state == st
  }

  lemma {:induction false} FreeRowsAre(w: World, backoff: Backoff, st: State, room: nat)
    ensures var free := FreeRows(w, backoff)(st, room);
      && (free != [] <==> exists a :: a in Candidates(w.rows, backoff, st, room) && a !in w.controllers)
      && forall a | a in free :: a in w.rows && w.rows[a].state == st
  {
    var free := FreeRows(w, backoff)(st, room);
    if free != [] { assert free[0] in free; }
  }

  /** The free rows of each state are in that state. */
  ghost predicate InState(w: World, page: Page) {
    forall st: State, room: nat, a | a in page(st, room) :: a in w.rows && w.rows[a].state == st
  }

  lemma FreeRowsInState(w: World, backoff: Backoff)
    ensures InState(w, FreeRows(w, backoff))
  {
    forall st: State, room: nat, a | a in FreeRows(w, backoff)(st, room) ensures a in w.rows && w.rows[a].state == st {
      FreeRowsAre(w, backoff, st, room);
    }
  }

  lemma {:induction false} OneIsIn(w: World, page: Page, order: seq<State>, room: nat)
    requires InState(w, page)
    ensures forall a | a in One(page, order, room) :: a in w.rows && w.rows[a].state in order
    decreases |order|
  {
    if order != [] {
      var free := page(order[0], room);
      if free != [] { assert free[0] in free; } else { OneIsIn(w, page, order[1..], room); }
    }
  }

  /** The one row is of the first state that has a free one. */
  lemma {:induction false} OneAt(w: World, page: Page, order: seq<State>, room: nat, k: nat)
    requires InState(w, page) && k < |order| && forall i, j | 0 <= i < j < |order| :: order[i] != order[j]
    ensures HasRow(w, One(page, order, room), order[k]) <==>
            page(order[k], room) != [] && forall j | 0 <= j < k :: page(order[j], room) == []
    decreases |order|
  {
    var free, rest := page(order[0], room), order[1..];
    assert forall i | 0 <= i < |rest| :: rest[i] == order[i + 1];
    if free != [] {
      assert free[0] in free && One(page, order, room) == [free[0]] && w.rows[free[0]].state == order[0];
      assert free[0] in [free[0]];
    } else if k > 0 {
      OneAt(w, page, rest, room, k - 1);
      FirstToo(page, order, room, k);
    } else {
      OneIsIn(w, page, rest, room);
    }
  }

  lemma FirstToo(page: Page, order: seq<State>, room: nat, k: nat)
    requires 0 < k < |order| && page(order[0], room) == []
    ensures (forall j | 0 <= j < k :: page(order[j], room) == []) <==> forall j | 0 <= j < k - 1 :: page(order[1..][j], room) == []
  {
    if forall j | 0 <= j < k - 1 :: page(order[1..][j], room) == [] {
      forall j | 0 <= j < k ensures page(order[j], room) == [] {
        if j > 0 { assert order[1..][j - 1] == order[j]; }
      }
    }
  }

  lemma {:induction false} EveryIsIn(w: World, page: Page, order: seq<State>, room: nat)
    requires InState(w, page)
    ensures forall a | a in Every(page, order, room) :: a in w.rows && w.rows[a].state in order
    decreases |order|
  {
    if order != [] { EveryIsIn(w, page, order[1..], Less(room, |page(order[0], room)|)); }
  }

  lemma CopiesAreIn(cfg: Config, w: World, page: Page, room: nat)
    requires InState(w, page)
    ensures forall a | a in Copies(cfg, w, page, room) :: a in w.rows && IsStage6(w.rows[a].state)
  {
    EveryIsIn(w, page, CopyOrder(cfg), room);
    OneIsIn(w, page, [AipStoreInProgress], room);
    OneIsIn(w, page, [AipStorePending], room);
  }

  lemma PackagesAreOutside(cfg: Config, w: World, backoff: Backoff)
    ensures NoneOf(w, Packages(cfg, w, FreeRows(w, backoff)), IsStage6)
  {
    LoopAdds(cfg, w, backoff);
    PackagesAreClaimed(cfg, w, backoff, FreeRows(w, backoff));
    OrderIs(cfg);
    ClaimedOutside(cfg, w, backoff, PackageOrder(cfg), IsStage6);
  }

  lemma InEither(w: World, packages: seq<Id>, copies: seq<Id>, st: State)
    requires NoneOf(w, packages, IsStage6) && forall a | a in copies :: a in w.rows && IsStage6(w.rows[a].state)
    ensures HasRow(w, packages + copies, st) <==> HasRow(w, if IsStage6(st) then copies else packages, st)
  {
    if a :| a in (if IsStage6(st) then copies else packages) && a in w.rows && w.rows[a].state == st {
      assert a in packages + copies;
    }
  }

  lemma ClaimsOneIs(cfg: Config, w: World, backoff: Backoff, st: State, claim: seq<Id>)
    requires claim == Claim(cfg, w, backoff)
    ensures ClaimsOne(cfg, w, backoff, st) <==> HasRow(w, claim, st)
  {
  }

  /** The states of stage 6 are claimed among the copies, all others among the packages. */
  lemma PartsOfClaim(cfg: Config, w: World, backoff: Backoff, st: State, packages: seq<Id>, copies: seq<Id>)
    requires packages == Packages(cfg, w, FreeRows(w, backoff))
    requires copies == Copies(cfg, w, FreeRows(w, backoff), CopyRoom(cfg, w, backoff))
    ensures ClaimsOne(cfg, w, backoff, st) <==> HasRow(w, if IsStage6(st) then copies else packages, st)
  {
    ClaimIs(cfg, w, backoff);
    FreeRowsInState(w, backoff);
    PackagesAreOutside(cfg, w, backoff);
    CopiesAreIn(cfg, w, FreeRows(w, backoff), CopyRoom(cfg, w, backoff));
    InEither(w, packages, copies, st);
    ClaimsOneIs(cfg, w, backoff, st, packages + copies);
  }

  lemma PackageClaimed(cfg: Config, w: World, backoff: Backoff, st: State)
    requires !IsStage6(st)
    ensures ClaimsOne(cfg, w, backoff, st) <==> HasRow(w, Packages(cfg, w, FreeRows(w, backoff)), st)
  {
    PartsOfClaim(cfg, w, backoff, st, Packages(cfg, w, FreeRows(w, backoff)),
                 Copies(cfg, w, FreeRows(w, backoff), CopyRoom(cfg, w, backoff)));
  }

  lemma CopyClaimed(cfg: Config, w: World, backoff: Backoff, st: State)
    requires IsStage6(st)
    ensures ClaimsOne(cfg, w, backoff, st) <==>
            HasRow(w, Copies(cfg, w, FreeRows(w, backoff), CopyRoom(cfg, w, backoff)), st)
  {
    PartsOfClaim(cfg, w, backoff, st, Packages(cfg, w, FreeRows(w, backoff)),
                 Copies(cfg, w, FreeRows(w, backoff), CopyRoom(cfg, w, backoff)));
  }

  /** Some pending copy is free: outside backoff, among the first `room` such of the newest SCAN. */
  predicate SomeCopyFree(w: World, backoff: Backoff, room: nat) {
    exists a :: a in Prefix(Runnable(w.rows, ListQueue(w.rows, AipStorePending, SCAN), backoff), room) && a !in w.controllers
  }

  lemma PageHasFree(w: World, backoff: Backoff, st: State, room: nat)
    ensures FreeRows(w, backoff)(st, room) != [] <==>
            if st.AipStorePending? then SomeCopyFree(w, backoff, room) else SomeFree(w, st, room)
  {
    FreeRowsAre(w, backoff, st, room);
  }

  lemma SingleIs(page: Page, only: State, room: nat, free: seq<Id>)
    requires free == page(only, room)
    ensures One(page, [only], room) == if free == [] then [] else [free[0]]
  {
    assert One(page, [only][1..], room) == [];
  }

  lemma HasSingle(w: World, a: Id, st: State)
    requires a in w.rows
    ensures HasRow(w, [a], st) <==> st == w.rows[a].state
    ensures !HasRow(w, [], st)
  {
    assert a in [a];
  }

  lemma SingleOf(w: World, page: Page, only: State, st: State, room: nat, free: seq<Id>)
    requires free == page(only, room) && (free != [] ==> free[0] in w.rows && w.rows[free[0]].state == only)
    ensures HasRow(w, One(page, [only], room), st) <==> st == only && free != []
  {
    SingleIs(page, only, room, free);
    if free != [] { HasSingle(w, free[0], st); }
  }

  lemma SingleOne(w: World, backoff: Backoff, only: State, st: State, room: nat)
    ensures HasRow(w, One(FreeRows(w, backoff), [only], room), st) <==> st == only && FreeRows(w, backoff)(only, room) != []
  {
    FreeRowsAre(w, backoff, only, room);
    var free := FreeRows(w, backoff)(only, room);
    if free != [] { assert free[0] in free; }
    SingleOf(w, FreeRows(w, backoff), only, st, room, free);
  }

  lemma NoneFreeInside(w: World, p: State -> bool, st: State, room: nat)
    requires NoneOpen(w, p) && p(st)
    ensures !SomeFree(w, st, room)
  {
    CountZero(w.rows, p);
    NoneInside(w, p, [st]);
    assert st in [st] && Matching(w.rows, st) == {} && ListQueue(w.rows, st, room) == [];
  }

  /** A RESUMED COPY, exactly, in both claim orders: a tick claims a row at AipStoreInProgress if and
      only if no copy is dispatched and a free such row is on the page that the room left by stages 1
      to 5 allows. What the table holds elsewhere does not matter, and no other copy need be done. */
  lemma CopyResumedIff(cfg: Config, w: World, backoff: Backoff)
    requires cfg.stage6Serial
    ensures ClaimsOne(cfg, w, backoff, AipStoreInProgress) <==>
            w.stage6 == {} && SomeFree(w, AipStoreInProgress, CopyRoom(cfg, w, backoff))
  {
    var room := CopyRoom(cfg, w, backoff);
    CopyClaimed(cfg, w, backoff, AipStoreInProgress);
    CountZero(w.rows, IsCopying);
    SingleOne(w, backoff, AipStoreInProgress, AipStoreInProgress, room);
    SingleOne(w, backoff, AipStorePending, AipStoreInProgress, room);
    PageHasFree(w, backoff, AipStoreInProgress, room);
    if NoneOpen(w, IsCopying) { NoneFreeInside(w, IsCopying, AipStoreInProgress, room); }
  }

  /** A NEW COPY, exactly, in both claim orders: a tick claims a row at AipStorePending if and only if
      no copy is dispatched, no open row is at AipStoreInProgress, and a free pending copy is within
      the room, rows in backoff passed over. */
  lemma NewCopyAdmittedIff(cfg: Config, w: World, backoff: Backoff)
    requires cfg.stage6Serial
    ensures ClaimsOne(cfg, w, backoff, AipStorePending) <==>
            w.stage6 == {} && NoneOpen(w, IsCopying) && SomeCopyFree(w, backoff, CopyRoom(cfg, w, backoff))
  {
    var room := CopyRoom(cfg, w, backoff);
    CopyClaimed(cfg, w, backoff, AipStorePending);
    CountZero(w.rows, IsCopying);
    SingleOne(w, backoff, AipStoreInProgress, AipStorePending, room);
    SingleOne(w, backoff, AipStorePending, AipStorePending, room);
    PageHasFree(w, backoff, AipStorePending, room);
  }

  /** With one copy at a time and room for it, stage 6 never stalls: whenever none is dispatched and
      an open row at AipStoreInProgress is the newest, that row is claimed. */
  lemma NewestCopyResumes(cfg: Config, w: World, backoff: Backoff)
    requires cfg.stage6Serial && w.stage6 == {} && CopyRoom(cfg, w, backoff) > 0
    requires Matching(w.rows, AipStoreInProgress) != {} && MaxId(Matching(w.rows, AipStoreInProgress)) !in w.controllers
    ensures ClaimsOne(cfg, w, backoff, AipStoreInProgress)
  {
    var room := CopyRoom(cfg, w, backoff);
    var m := MaxId(Matching(w.rows, AipStoreInProgress));
    assert m in ListQueue(w.rows, AipStoreInProgress, room);
    CopyResumedIff(cfg, w, backoff);
  }

  lemma FirstOfIff(w: World, backoff: Backoff, order: seq<State>, room: nat, k: nat)
    requires k < |order| && (forall i, j | 0 <= i < j < |order| :: order[i] != order[j]) && AipStorePending !in order
    ensures HasRow(w, One(FreeRows(w, backoff), order, room), order[k]) <==>
            SomeFree(w, order[k], room) && forall j | 0 <= j < k :: !SomeFree(w, order[j], room)
  {
    FreeRowsInState(w, backoff);
    OneAt(w, FreeRows(w, backoff), order, room, k);
    forall j | 0 <= j < |order| ensures FreeRows(w, backoff)(order[j], room) != [] <==> SomeFree(w, order[j], room) {
      PageHasFree(w, backoff, order[j], room);
    }
  }

  /** A PACKAGE UNDER WAY, exactly. In serial mode a tick claims a row of a mid-pipeline state if and
      only if nothing of stages 1 to 5 is dispatched, one of the newest `concurrency` rows of the state
      is free, and no later state has such a row. */
  lemma MidResumedIff(cfg: Config, w: World, backoff: Backoff, k: nat)
    requires cfg.Serial() && k < |LATEST_FIRST|
    ensures ClaimsOne(cfg, w, backoff, LATEST_FIRST[k]) <==>
      && w.pipeline == {} && SomeFree(w, LATEST_FIRST[k], cfg.concurrency)
      && forall j | 0 <= j < k :: !SomeFree(w, LATEST_FIRST[j], cfg.concurrency)
  {
    MidIsSerial(cfg, w, backoff, LATEST_FIRST[k]);
    SerialInside(w, backoff, LATEST_FIRST, k, cfg.concurrency);
  }

  lemma MidIsSerial(cfg: Config, w: World, backoff: Backoff, st: State)
    requires cfg.Serial() && IsMid(st)
    ensures ClaimsOne(cfg, w, backoff, st) <==> HasRow(w, SerialPackages(w, FreeRows(w, backoff), cfg.concurrency), st)
  {
    PackageClaimed(cfg, w, backoff, st);
  }

  lemma SerialInside(w: World, backoff: Backoff, order: seq<State>, k: nat, room: nat)
    requires k < |order| && order == LATEST_FIRST
    ensures HasRow(w, SerialPackages(w, FreeRows(w, backoff), room), order[k]) <==>
            w.pipeline == {} && SomeFree(w, order[k], room) && forall j | 0 <= j < k :: !SomeFree(w, order[j], room)
  {
    assert IsMid(order[k]);
    FirstOfIff(w, backoff, order, room, k);
    SingleOne(w, backoff, Pending, order[k], room);
    CountZero(w.rows, IsMid);
    if NoneOpen(w, IsMid) { NoneFreeInside(w, IsMid, order[k], room); }
  }

  /** The room that the uploading states leave is the room read off their pages. */
  lemma {:induction false} EveryLeaves(page: Page, takes: Takes, order: seq<State>, room: nat)
    requires forall i, n: nat | 0 <= i < |order| :: takes(order[i], n) == |page(order[i], n)| <= n
    ensures RoomLeft(takes, order, room) == Less(room, |Every(page, order, room)|) && |Every(page, order, room)| <= room
    decreases |order|
  {
    if order != [] {
      var rest := order[1..];
      forall i, n: nat | 0 <= i < |rest| ensures takes(rest[i], n) == |page(rest[i], n)| <= n { assert rest[i] == order[i + 1]; }
      EveryLeaves(page, takes, rest, Less(room, takes(order[0], room)));
    }
  }

  lemma RoomAfterUploading(cfg: Config, w: World, backoff: Backoff)
    ensures Less(cfg.concurrency, |Every(FreeRows(w, backoff), UPLOADING, cfg.concurrency)|) == EntryRoom(cfg, w)
  {
    var page, takes := FreeRows(w, backoff), FreeOnPage(w);
    assert UPLOADING == BEFORE_ENTRY;
    forall i, n: nat | 0 <= i < |UPLOADING| ensures takes(UPLOADING[i], n) == |page(UPLOADING[i], n)| <= n {
      PageOf(w.rows, backoff, UPLOADING[i], n);
    }
    EveryLeaves(page, takes, UPLOADING, cfg.concurrency);
  }

  /** THE PACKAGE INSIDE, exactly. In interleaved mode a tick claims a row of an inside state if and
      only if nothing is dispatched in Archivematica, a free row of the state is on the page that the
      room left by the four uploading states allows, and no earlier inside state has one. */
  lemma InsideResumedIff(cfg: Config, w: World, backoff: Backoff, k: nat)
    requires Interleaved(cfg) && k < |INSIDE|
    ensures ClaimsOne(cfg, w, backoff, INSIDE[k]) <==>
      && w.am == {} && SomeFree(w, INSIDE[k], EntryRoom(cfg, w))
      && forall j | 0 <= j < k :: !SomeFree(w, INSIDE[j], EntryRoom(cfg, w))
  {
    InsideIsTransfer(cfg, w, backoff, INSIDE[k]);
    TransferInside(w, backoff, INSIDE, k, EntryRoom(cfg, w));
  }

  lemma InsideIsTransfer(cfg: Config, w: World, backoff: Backoff, st: State)
    requires Interleaved(cfg) && IsAmActive(st)
    ensures ClaimsOne(cfg, w, backoff, st) <==> HasRow(w, Transfers(w, FreeRows(w, backoff), EntryRoom(cfg, w)), st)
  {
    PackageClaimed(cfg, w, backoff, st);
    TransferIsFrom(cfg, w, backoff, st);
  }

  lemma TransferInside(w: World, backoff: Backoff, order: seq<State>, k: nat, room: nat)
    requires k < |order| && order == INSIDE
    ensures HasRow(w, Transfers(w, FreeRows(w, backoff), room), order[k]) <==>
            w.am == {} && SomeFree(w, order[k], room) && forall j | 0 <= j < k :: !SomeFree(w, order[j], room)
  {
    assert IsAmInside(order[k]);
    FirstOfIff(w, backoff, order, room, k);
    SingleOne(w, backoff, UploadComplete, order[k], room);
    CountZero(w.rows, IsAmInside);
    if NoneOpen(w, IsAmInside) { NoneFreeInside(w, IsAmInside, order[k], room); }
  }

  lemma EveryOutside(w: World, page: Page, order: seq<State>, room: nat, st: State)
    requires InState(w, page) && st !in order
    ensures forall a | a in Every(page, order, room) :: a in w.rows && w.rows[a].state != st
  {
    EveryIsIn(w, page, order, room);
  }

  lemma ActiveIsMiddle(st: State)
    requires IsAmActive(st)
    ensures st !in UPLOADING && st !in FINISHING && !IsStage6(st)
  {
  }

  /** Rows of Archivematica's states are claimed by the middle run of states alone. */
  lemma TransferIsFrom(cfg: Config, w: World, backoff: Backoff, st: State)
    requires Interleaved(cfg) && IsAmActive(st)
    ensures HasRow(w, Packages(cfg, w, FreeRows(w, backoff)), st) <==>
            HasRow(w, Transfers(w, FreeRows(w, backoff), EntryRoom(cfg, w)), st)
  {
    FreeRowsInState(w, backoff);
    ActiveIsMiddle(st);
    RoomAfterUploading(cfg, w, backoff);
    MiddleOf(cfg, w, FreeRows(w, backoff), UPLOADING, FINISHING, st, EntryRoom(cfg, w));
  }

  lemma MiddleOf(cfg: Config, w: World, page: Page, early: seq<State>, late: seq<State>, st: State, room: nat)
    requires InState(w, page) && st !in early && st !in late && Interleaved(cfg)
    requires room == Less(cfg.concurrency, |Every(page, early, cfg.concurrency)|) && early == UPLOADING && late == FINISHING
    ensures HasRow(w, Packages(cfg, w, page), st) <==> HasRow(w, Transfers(w, page, room), st)
  {
    var a, b := Every(page, early, cfg.concurrency), Transfers(w, page, room);
    var c := Every(page, late, Less(cfg.concurrency, |a| + |b|));
    EveryOutside(w, page, early, cfg.concurrency, st);
    EveryOutside(w, page, late, Less(cfg.concurrency, |a| + |b|), st);
    InMiddle(w, a, b, c, st);
  }

  lemma InMiddle(w: World, a: seq<Id>, b: seq<Id>, c: seq<Id>, st: State)
    requires forall id | id in a || id in c :: id in w.rows && w.rows[id].state != st
    ensures HasRow(w, a + b + c, st) <==> HasRow(w, b, st)
  {
    assert forall id :: id in a + b + c <==> id in a || id in b || id in c;
  }
}
