/** What the claim gates guarantee on every run of the ingest worker. */
module GateInvariants {
  import opened Basics
  import opened PipelineStates
  import opened IngestGates

  /** A gate keeps one package at a time in a window of the pipeline.
      OneDispatch is the memory half of the serial window alone.
      The early window is the part of the serial window that ends when Archivematica is done.
      The two approved windows are the Archivematica and the serial window with TransferApproved
      counted in. */
  datatype Gate = SerialGate | OneDispatchGate | EarlyGate | AmGate | CopyGate | ApprovedGate | SerialApprovedGate

  /** A window that holds a state the worker's own sets leave out. */
  predicate Blind(g: Gate) {
    g == ApprovedGate || g == SerialApprovedGate
  }

  predicate IsEarlyMid(s: State) {
    IsMid(s) && !(s.IngestComplete? || s.WaitingForDuracloud? || s.MetadataProcessed? || s.CreatingRepositoryRecord?)
  }

  /** The database half: an open row resting in one of these states is in the window. */
  predicate Inside(g: Gate, s: State) {
    match g
    case SerialGate => IsMid(s)
    case OneDispatchGate => false
    case EarlyGate => IsEarlyMid(s)
    case AmGate => IsAmInside(s)
    case CopyGate => s.AipStoreInProgress?
    case ApprovedGate => IsAmInside(s) || s.TransferApproved?
    case SerialApprovedGate => IsMid(s) || s.TransferApproved?
  }

  /** The memory half: a row dispatched from one of these states is in the window. */
  predicate Holds(g: Gate, s: State) {
    match g
    case SerialGate => IsPipeline(s)
    case OneDispatchGate => IsPipeline(s)
    case EarlyGate => s.Pending? || IsEarlyMid(s)
    case AmGate => IsAmActive(s)
    case CopyGate => IsStage6(s)
    case ApprovedGate => IsAmActive(s)
    case SerialApprovedGate => IsPipeline(s)
  }

  predicate Enforced(g: Gate, cfg: Config) {
    match g
    case SerialGate => cfg.Serial()
    case OneDispatchGate => cfg.Serial()
    case EarlyGate => cfg.Serial()
    case AmGate => !cfg.amParallel && !cfg.Serial()
    case CopyGate => cfg.stage6Serial
    case ApprovedGate => !cfg.amParallel && !cfg.Serial()
    case SerialApprovedGate => cfg.Serial()
  }

  predicate Resting(g: Gate, w: World, id: Id) {
    w.Open(id) && Inside(g, w.rows[id].state)
  }

  predicate Holding(g: Gate, w: World, id: Id) {
    id in w.controllers && Holds(g, w.controllers[id].entry)
  }

  /** The packages in the gate's window: those at rest in the table and those dispatched. */
  function Occupants(g: Gate, w: World): set<Id> {
    set id | id in w.rows && (Resting(g, w, id) || Holding(g, w, id))
  }

  ghost predicate AtMostOne(ids: set<Id>) {
    forall a, b | a in ids && b in ids :: a == b
  }

  lemma AtMostOneCard(ids: set<Id>)
    ensures AtMostOne(ids) <==> |ids| <= 1
  {
    if AtMostOne(ids) && ids != {} {
      var a :| a in ids;
      assert ids == {a};
    }
    if |ids| == 1 {
      var a :| a in ids;
      assert |ids - {a}| == 0;
      forall b | b in ids ensures b == a {
        assert b !in ids - {a};
      }
    }
  }

  // --- one claim phase ----------------------------------------------------------

  lemma CountZero(rows: map<Id, Row>, inside: State -> bool)
    ensures CountIn(rows, inside) == 0 <==> forall id | id in rows && !rows[id].complete :: !inside(rows[id].state)
  {
    var s := set id | id in rows && inside(rows[id].state) && !rows[id].complete;
    if id :| id in rows && !rows[id].complete && inside(rows[id].state) {
      assert id in s;
    } else {
      assert s == {};
    }
  }

  /** What a gate needs of the rows claimed in one tick. */
  ghost predicate Respects(g: Gate, w: World, claimed: seq<Id>) {
    && (forall id | id in claimed :: w.Open(id) && id !in w.controllers)
    && (forall a, b | a in claimed && b in claimed && Holds(g, w.rows[a].state) && Holds(g, w.rows[b].state) :: a == b)
    && ((exists a :: a in claimed && Holds(g, w.rows[a].state)) ==> forall d | d in w.rows :: !Holding(g, w, d))
    && (forall a | a in claimed && Holds(g, w.rows[a].state) && !Inside(g, w.rows[a].state) ::
          Blind(g) || forall id | id in w.rows :: !Resting(g, w, id))
  }

  lemma NoneAdmitted(w: World, claimed: seq<Id>, p: State -> bool)
    requires forall id | id in claimed :: id in w.rows
    requires !Admitted(w.rows, claimed, p)
    ensures forall id | id in claimed :: !p(w.rows[id].state)
  {
    forall id | id in claimed ensures !p(w.rows[id].state) {
      var i :| 0 <= i < |claimed| && claimed[i] == id;
    }
  }

  /** What an open gate says about the world it was read in. */
  lemma GateOpen(g: Gate, cfg: Config, w: World, st: State, claimed: seq<Id>)
    requires w.Valid() && Enforced(g, cfg) && Holds(g, st)
    requires forall id | id in claimed :: id in w.rows
    requires !Gated(cfg, w, st, claimed)
    ensures OnePerTick(cfg, st)
    ensures forall id | id in claimed :: !Holds(g, w.rows[id].state)
    ensures forall id | id in w.rows :: !Holding(g, w, id)
    ensures Inside(g, st) || Blind(g) || forall id | id in w.rows :: !Resting(g, w, id)
  {
    match g
    case SerialGate | OneDispatchGate | EarlyGate | SerialApprovedGate =>
      assert !SerialGated(w, st, claimed);
      NoneAdmitted(w, claimed, IsPipeline);
      CountZero(w.rows, IsMid);
    case AmGate | ApprovedGate =>
      assert !AmGated(w, st, claimed);
      NoneAdmitted(w, claimed, IsAmActive);
      CountZero(w.rows, IsAmInside);
    case CopyGate =>
      assert !CopyGated(cfg, w, st, claimed);
      NoneAdmitted(w, claimed, IsStage6);
      CountZero(w.rows, IsCopying);
  }

  lemma ExtendClean(g: Gate, w: World, claimed: seq<Id>, take: seq<Id>)
    requires Respects(g, w, claimed)
    requires forall id | id in take :: w.Open(id) && id !in w.controllers && !Holds(g, w.rows[id].state)
    ensures Respects(g, w, claimed + take)
  {
    assert forall id :: id in claimed + take <==> id in claimed || id in take;
  }

  lemma ExtendOne(g: Gate, w: World, claimed: seq<Id>, a: Id)
    requires Respects(g, w, claimed)
    requires w.Open(a) && a !in w.controllers
    requires forall id | id in claimed :: !Holds(g, w.rows[id].state)
    requires forall d | d in w.rows :: !Holding(g, w, d)
    requires Inside(g, w.rows[a].state) || Blind(g) || forall id | id in w.rows :: !Resting(g, w, id)
    ensures Respects(g, w, claimed + [a])
  {
    assert forall id :: id in claimed + [a] <==> id in claimed || id == a;
  }

  lemma TakeRespects(g: Gate, cfg: Config, w: World, backoff: Backoff, st: State, claimed: seq<Id>)
    requires w.Valid() && Enforced(g, cfg) && Respects(g, w, claimed)
    ensures Respects(g, w, claimed + TakeFor(cfg, w, backoff, st, claimed))
  {
    var take := TakeFor(cfg, w, backoff, st, claimed);
    if take == [] || !Holds(g, st) {
      ExtendClean(g, w, claimed, take);
    } else {
      GateOpen(g, cfg, w, st, claimed);
      assert take == [take[0]] && take[0] in take;
      ExtendOne(g, w, claimed, take[0]);
    }
  }

  lemma {:induction false} ClaimRespects(g: Gate, cfg: Config, w: World, backoff: Backoff, order: seq<State>, claimed: seq<Id>)
    requires w.Valid() && Enforced(g, cfg) && Respects(g, w, claimed)
    ensures Respects(g, w, ClaimFrom(cfg, w, backoff, order, claimed))
    decreases |order|
  {
    if order != [] {
      TakeRespects(g, cfg, w, backoff, order[0], claimed);
      ClaimRespects(g, cfg, w, backoff, order[1..], claimed + TakeFor(cfg, w, backoff, order[0], claimed));
    }
  }

  lemma {:induction false} DispatchEffect(w: World, ids: seq<Id>)
    requires w.Valid()
    requires forall id | id in ids :: id in w.rows && IsReady(w.rows[id].state)
    requires forall id | id in ids && id in w.controllers :: w.controllers[id].entry == w.rows[id].state
    ensures var w' := DispatchAll(w, ids);
      && w'.Valid() && w'.rows == w.rows
      && (forall id :: id in w'.controllers <==> id in w.controllers || id in ids)
      && (forall id | id in ids :: w'.controllers[id].entry == w.rows[id].state)
      && (forall id | id in w.controllers :: w'.controllers[id].entry == w.controllers[id].entry)
    decreases |ids|
  {
    if ids != [] {
      var w1 := DispatchOne(w, ids[0]);
      DispatchEffect(w1, ids[1..]);
      assert forall id :: id in ids <==> id == ids[0] || id in ids[1..];
    }
  }

  /** No row is dispatched twice, only ready rows are dispatched, and no more than
      `concurrency` of them. */
  lemma {:induction false} ClaimWellFormed(cfg: Config, w: World, backoff: Backoff, order: seq<State>, claimed: seq<Id>)
    requires Distinct(order) && forall st | st in order :: IsReady(st)
    requires Distinct(claimed) && |claimed| <= cfg.concurrency
    requires forall id | id in claimed ::
      w.Open(id) && IsReady(w.rows[id].state) && w.rows[id].state !in order && id !in w.controllers
    ensures var r := ClaimFrom(cfg, w, backoff, order, claimed);
      && Distinct(r) && |r| <= cfg.concurrency
      && (forall id | id in r :: w.Open(id) && IsReady(w.rows[id].state) && id !in w.controllers)
    decreases |order|
  {
    if order != [] {
      var take := TakeFor(cfg, w, backoff, order[0], claimed);
      assert forall id | id in claimed + take :: id in claimed || id in take;
      assert forall i | 0 <= i < |claimed| :: claimed[i] in claimed;
      assert forall i | 0 <= i < |take| :: take[i] in take;
      assert forall st | st in order[1..] :: st in order && st != order[0];
      assert order[0] in order;
      ClaimWellFormed(cfg, w, backoff, order[1..], claimed + take);
    }
  }

  lemma ClaimIsWellFormed(cfg: Config, w: World, backoff: Backoff)
    ensures var r := Claim(cfg, w, backoff);
      && Distinct(r) && |r| <= cfg.concurrency
      && (forall id | id in r :: w.Open(id) && IsReady(w.rows[id].state) && id !in w.controllers)
  {
    assert Distinct(SERIAL_CLAIM_ORDER) && Distinct(READY_STATES);
    ClaimWellFormed(cfg, w, backoff, cfg.ClaimOrder(), []);
  }

  // --- steps ----------------------------------------------------------------------

  lemma {:induction false} StepKeepsValid(cfg: Config, w: World, l: Label)
    requires w.Valid() && Enabled(w, l)
    ensures Apply(cfg, w, l).Valid()
  {
    if l.Tick? {
      ClaimIsWellFormed(cfg, w, l.backoff);
      DispatchEffect(w, Claim(cfg, w, l.backoff));
    }
  }

  /** The steps that could bring a package into the window behind the gate's back. */
  predicate Bypasses(g: Gate, w: World, l: Label)
    requires Enabled(w, l)
  {
    match l
    case Enqueue(_, row) => Inside(g, row.state) && !row.complete
    case RetryAccessCopy(id) => Inside(g, WaitingForDuracloud) && !w.rows[id].complete
    case _ => false
  }

  lemma WritesStayInWindow(g: Gate, entry: State, to: State)
    requires MayWrite(entry, to) && Inside(g, to)
    ensures Holds(g, entry)
  {
  }

  lemma StepAddsNoHolder(cfg: Config, w: World, l: Label)
    requires w.Valid() && Enabled(w, l) && !l.Tick?
    ensures var w' := Apply(cfg, w, l);
      forall id | id in w'.controllers :: id in w.controllers && w'.controllers[id].entry == w.controllers[id].entry
  {
  }

  /** A row that a step moves comes to rest in the window only by its own stage's write. */
  lemma StepRowMoves(cfg: Config, w: World, l: Label, id: Id)
    requires w.Valid() && Enabled(w, l) && !l.Tick?
    requires id in Apply(cfg, w, l).rows && !Apply(cfg, w, l).rows[id].complete
    ensures var st := Apply(cfg, w, l).rows[id].state;
      || (w.Open(id) && w.rows[id].state == st)
      || (l.StageWrite? && l.id == id && l.to == st)
      || st.Pending? || st.IngestHalted? || st.CancelledByUser? || st.AipStorePending? || st.AipStoreFailed?
      || (l.Enqueue? && l.id == id && l.row.state == st && !l.row.complete)
      || (l.RetryAccessCopy? && l.id == id && st.WaitingForDuracloud? && w.Open(id))
  {
  }

  lemma StepAddsNoOccupant(g: Gate, cfg: Config, w: World, l: Label)
    requires w.Valid() && Enabled(w, l) && !l.Tick? && !Bypasses(g, w, l)
    ensures Occupants(g, Apply(cfg, w, l)) <= Occupants(g, w)
  {
    var w' := Apply(cfg, w, l);
    StepAddsNoHolder(cfg, w, l);
    forall id | id in Occupants(g, w') ensures id in Occupants(g, w) {
      if Resting(g, w', id) { RestedBefore(g, cfg, w, l, id); }
    }
  }

  /** A row that a step leaves at rest in the window was in the window. */
  lemma RestedBefore(g: Gate, cfg: Config, w: World, l: Label, id: Id)
    requires w.Valid() && Enabled(w, l) && !l.Tick? && !Bypasses(g, w, l)
    requires Resting(g, Apply(cfg, w, l), id)
    ensures id in w.rows && (Resting(g, w, id) || Holding(g, w, id))
  {
    StepRowMoves(cfg, w, l, id);
    if l.StageWrite? && l.id == id {
      if Inside(g, l.to) { WritesStayInWindow(g, w.controllers[id].entry, l.to); }
    }
  }

  /** The tick admits a row into the window although one rests there already. */
  ghost predicate AdmitsPast(g: Gate, cfg: Config, w: World, backoff: Backoff) {
    && (exists a :: a in Claim(cfg, w, backoff) && a in w.rows && Holds(g, w.rows[a].state) && !Inside(g, w.rows[a].state))
    && (exists b :: b in w.rows && Resting(g, w, b))
  }

  lemma TickFacts(g: Gate, cfg: Config, w: World, backoff: Backoff)
    requires w.Valid() && Enforced(g, cfg)
    ensures var w' := Apply(cfg, w, Tick(backoff)); var claimed := Claim(cfg, w, backoff);
      && Respects(g, w, claimed) && w'.rows == w.rows
      && (forall id :: id in w'.controllers <==> id in w.controllers || id in claimed)
      && (forall id | id in claimed :: w'.controllers[id].entry == w.rows[id].state)
      && (forall id | id in w.controllers :: w'.controllers[id].entry == w.controllers[id].entry)
  {
    ClaimIsWellFormed(cfg, w, backoff);
    ClaimRespects(g, cfg, w, backoff, cfg.ClaimOrder(), []);
    DispatchEffect(w, Claim(cfg, w, backoff));
  }

  lemma TickOccupants(g: Gate, w: World, w': World, claimed: seq<Id>)
    requires Respects(g, w, claimed) && w'.rows == w.rows
    requires forall id :: id in w'.controllers <==> id in w.controllers || id in claimed
    requires forall id | id in claimed :: w'.controllers[id].entry == w.rows[id].state
    requires forall id | id in w.controllers :: w'.controllers[id].entry == w.controllers[id].entry
    ensures forall id :: id in Occupants(g, w') <==>
      id in Occupants(g, w) || (id in claimed && Holds(g, w.rows[id].state))
  {
    forall id ensures id in Occupants(g, w') <==>
      id in Occupants(g, w) || (id in claimed && Holds(g, w.rows[id].state))
    {
      if id in w.rows {
        assert Resting(g, w', id) == Resting(g, w, id);
        assert Holding(g, w', id) <==> Holding(g, w, id) || (id in claimed && Holds(g, w.rows[id].state));
      }
    }
  }

  lemma TickKeepsGate(g: Gate, cfg: Config, w: World, backoff: Backoff)
    requires w.Valid() && Enforced(g, cfg) && AtMostOne(Occupants(g, w))
    ensures AtMostOne(Occupants(g, Apply(cfg, w, Tick(backoff)))) <==>
            !(Blind(g) && AdmitsPast(g, cfg, w, backoff))
  {
    var claimed := Claim(cfg, w, backoff);
    var w' := Apply(cfg, w, Tick(backoff));
    TickFacts(g, cfg, w, backoff);
    TickOccupants(g, w, w', claimed);
    if Blind(g) && AdmitsPast(g, cfg, w, backoff) {
      var a :| a in claimed && a in w.rows && Holds(g, w.rows[a].state) && !Inside(g, w.rows[a].state);
      var b :| b in w.rows && Resting(g, w, b);
      assert a in Occupants(g, w') && b in Occupants(g, w') && a != b;
    } else {
      TickKeepsGateQuiet(g, w, w', claimed);
    }
  }

  lemma TickKeepsGateQuiet(g: Gate, w: World, w': World, claimed: seq<Id>)
    requires AtMostOne(Occupants(g, w)) && Respects(g, w, claimed)
    requires forall id | id in Occupants(g, w') :: id in Occupants(g, w) || (id in claimed && Holds(g, w.rows[id].state))
    requires Blind(g) ==> forall a, b |
      a in claimed && Holds(g, w.rows[a].state) && !Inside(g, w.rows[a].state) && b in w.rows :: !Resting(g, w, b)
    ensures AtMostOne(Occupants(g, w'))
  {
    forall a, b | a in Occupants(g, w') && b in Occupants(g, w') ensures a == b {
      if a in claimed && Holds(g, w.rows[a].state) {
        HeldIsAlone(g, w, claimed, a, b);
      } else if b in claimed && Holds(g, w.rows[b].state) {
        HeldIsAlone(g, w, claimed, b, a);
      }
    }
  }

  lemma HeldIsAlone(g: Gate, w: World, claimed: seq<Id>, a: Id, b: Id)
    requires AtMostOne(Occupants(g, w)) && Respects(g, w, claimed)
    requires a in claimed && Holds(g, w.rows[a].state)
    requires b in Occupants(g, w) || (b in claimed && Holds(g, w.rows[b].state))
    requires Blind(g) ==> forall x, y |
      x in claimed && Holds(g, w.rows[x].state) && !Inside(g, w.rows[x].state) && y in w.rows :: !Resting(g, w, y)
    ensures a == b
  {
    if !(b in claimed && Holds(g, w.rows[b].state)) {
      assert !Holding(g, w, b);
      assert Resting(g, w, b);
      assert Inside(g, w.rows[a].state);
      assert a in Occupants(g, w);
    }
  }

  /** THE GATE, one step: every step keeps the window at one package, except the steps that
      bypass the gate, and those do so exactly when another package is in the window. */
  lemma StepKeepsGate(g: Gate, cfg: Config, w: World, l: Label)
    requires w.Valid() && Enforced(g, cfg) && Enabled(w, l) && AtMostOne(Occupants(g, w))
    ensures AtMostOne(Occupants(g, Apply(cfg, w, l))) <==>
      && (Bypasses(g, w, l) ==> Occupants(g, w) <= {l.id})
      && !(Blind(g) && l.Tick? && AdmitsPast(g, cfg, w, l.backoff))
  {
    if l.Tick? {
      TickKeepsGate(g, cfg, w, l.backoff);
    } else if Bypasses(g, w, l) {
      var w' := Apply(cfg, w, l);
      assert l.id in Occupants(g, w');
      assert forall id :: id in Occupants(g, w') <==> id in Occupants(g, w) || id == l.id;
      if Occupants(g, w) <= {l.id} {
        assert forall a | a in Occupants(g, w') :: a == l.id;
      } else {
        var a :| a in Occupants(g, w) && a != l.id;
        assert a in Occupants(g, w');
      }
    } else {
      StepAddsNoOccupant(g, cfg, w, l);
    }
  }
}
