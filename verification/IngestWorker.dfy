/** The ingest worker object: its in-memory sets change in place, and each method is tied to
    one step of the transition system in IngestGates. */
module IngestWorker {
  import opened Basics
  import opened PipelineStates
  import opened IngestGates
  import opened GateInvariants
  import opened GateTheorems
  import ClaimForms

  lemma {:induction false} NotInFlightAppend(w: World, a: seq<Id>, b: seq<Id>)
    ensures NotInFlight(w, a + b) == NotInFlight(w, a) + NotInFlight(w, b)
    decreases |a|
  {
    if a == [] {
      assert a + b == b;
    } else {
      assert (a + b)[1..] == a[1..] + b;
      NotInFlightAppend(w, a[1..], b);
    }
  }

  lemma NotInFlightNext(w: World, ids: seq<Id>, i: nat)
    requires i < |ids|
    ensures NotInFlight(w, ids[..i + 1]) ==
            NotInFlight(w, ids[..i]) + if ids[i] in w.controllers then [] else [ids[i]]
  {
    assert ids[..i + 1] == ids[..i] + [ids[i]];
    NotInFlightAppend(w, ids[..i], [ids[i]]);
  }

  lemma TakenSoFar(w: World, ids: seq<Id>, i: nat)
    requires i <= |ids|
    ensures i == |ids| ==> NotInFlight(w, ids[..i]) == NotInFlight(w, ids)
    ensures |NotInFlight(w, ids[..i])| == 1 ==> NotInFlight(w, ids[..i]) == Prefix(NotInFlight(w, ids), 1)
    ensures NotInFlight(w, ids) == [] ==> NotInFlight(w, ids[..i]) == []
  {
    assert ids == ids[..i] + ids[i..];
    NotInFlightAppend(w, ids[..i], ids[i..]);
  }

  /** What the claim loop has taken when it stops is what a query's batch adds. */
  lemma PickIs(w: World, one: bool, batch: seq<Id>, i: nat, taken: seq<Id>, room: nat)
    requires i <= |batch| <= room && taken == NotInFlight(w, batch[..i])
    requires i == |batch| || (one && |taken| == 1) || |taken| >= room
    requires one ==> |taken| <= 1
    ensures taken == Pick(w, one, batch)
  {
    TakenSoFar(w, batch, i);
  }

  lemma {:induction false} DispatchAllSnoc(w: World, ids: seq<Id>, id: Id)
    requires id in w.rows && forall x | x in ids :: x in w.rows
    ensures DispatchAll(w, ids + [id]) == DispatchOne(DispatchAll(w, ids), id)
    decreases |ids|
  {
    if ids == [] {
      assert DispatchAll(DispatchOne(w, id), []) == DispatchOne(w, id);
    } else {
      assert (ids + [id])[1..] == ids[1..] + [id];
      DispatchAllSnoc(DispatchOne(w, ids[0]), ids[1..], id);
    }
  }

  ghost predicate Grown(w: World, before: set<Id>, after: set<Id>, ids: seq<Id>, p: State -> bool)
    requires forall id | id in ids :: id in w.rows
  {
    after == before + set id | id in ids && p(w.rows[id].state)
  }

  ghost predicate Entered(w: World, w': World, ids: seq<Id>)
    requires forall id | id in ids :: id in w.rows
  {
    && w'.controllers.Keys == w.controllers.Keys + (set id | id in ids)
    && forall id | id in w'.controllers ::
         w'.controllers[id] == if id in ids then Dispatch(w.rows[id].state, false) else w.controllers[id]
  }

  /** What dispatching these rows leaves in memory: each is entered under its state, not aborted, and
      in the sets of its state. */
  ghost predicate Dispatched(w: World, w': World, ids: seq<Id>)
    requires forall id | id in ids :: id in w.rows
  {
    && w'.rows == w.rows && Entered(w, w', ids)
    && Grown(w, w.pipeline, w'.pipeline, ids, IsPipeline) && Grown(w, w.am, w'.am, ids, IsAmActive)
    && Grown(w, w.stage6, w'.stage6, ids, IsStage6)
  }

  lemma GrownCons(w: World, s0: set<Id>, s2: set<Id>, ids: seq<Id>, p: State -> bool)
    requires ids != [] && forall id | id in ids :: id in w.rows
    requires Grown(w, if p(w.rows[ids[0]].state) then s0 + {ids[0]} else s0, s2, ids[1..], p)
    ensures Grown(w, s0, s2, ids, p)
  {
    assert forall id :: id in ids <==> id == ids[0] || id in ids[1..];
  }

  lemma EnteredCons(w: World, w1: World, w2: World, ids: seq<Id>)
    requires ids != [] && (forall id | id in ids :: id in w.rows) && w1.rows == w.rows
    requires w1.controllers == w.controllers[ids[0] := Dispatch(w.rows[ids[0]].state, false)]
    requires Entered(w1, w2, ids[1..])
    ensures Entered(w, w2, ids)
  {
    assert forall id :: id in ids <==> id == ids[0] || id in ids[1..];
  }

  lemma {:induction false} DispatchForms(w: World, ids: seq<Id>)
    requires forall id | id in ids :: id in w.rows
    ensures Dispatched(w, DispatchAll(w, ids), ids)
    decreases |ids|
  {
    if ids != [] {
      var w1, w2 := DispatchOne(w, ids[0]), DispatchAll(w, ids);
      DispatchForms(w1, ids[1..]);
      EnteredCons(w, w1, w2, ids);
      GrownCons(w, w.pipeline, w2.pipeline, ids, IsPipeline);
      GrownCons(w, w.am, w2.am, ids, IsAmActive);
      GrownCons(w, w.stage6, w2.stage6, ids, IsStage6);
    }
  }

  lemma AdmittedSnoc(rows: map<Id, Row>, claimed: seq<Id>, more: seq<Id>, st: State, p: State -> bool)
    requires forall id | id in more :: id in rows && rows[id].state == st
    ensures Admitted(rows, claimed + more, p) <==> Admitted(rows, claimed, p) || (more != [] && p(st))
  {
    var all := claimed + more;
    if i :| 0 <= i < |claimed| && claimed[i] in rows && p(rows[claimed[i]].state) {
      assert all[i] == claimed[i];
    }
    if more != [] {
      assert all[|claimed|] == more[0] && more[0] in more;
    }
    if i :| 0 <= i < |all| && all[i] in rows && p(rows[all[i]].state) {
      if i >= |claimed| { assert all[i] == more[i - |claimed|] && more[i - |claimed|] in more; }
      else { assert claimed[i] == all[i]; }
    }
  }

  lemma AdmittedAll(rows: map<Id, Row>, claimed: seq<Id>, more: seq<Id>, st: State)
    requires forall id | id in more :: id in rows && rows[id].state == st
    ensures Admitted(rows, claimed + more, IsPipeline) <==> Admitted(rows, claimed, IsPipeline) || (more != [] && IsPipeline(st))
    ensures Admitted(rows, claimed + more, IsAmActive) <==> Admitted(rows, claimed, IsAmActive) || (more != [] && IsAmActive(st))
    ensures Admitted(rows, claimed + more, IsStage6) <==> Admitted(rows, claimed, IsStage6) || (more != [] && IsStage6(st))
  {
    AdmittedSnoc(rows, claimed, more, st, IsPipeline);
    AdmittedSnoc(rows, claimed, more, st, IsAmActive);
    AdmittedSnoc(rows, claimed, more, st, IsStage6);
  }

  lemma ClaimStops(cfg: Config, w: World, backoff: Backoff, order: seq<State>, claimed: seq<Id>)
    requires order == [] || |claimed| >= cfg.concurrency
    ensures ClaimFrom(cfg, w, backoff, order, claimed) == claimed
    decreases |order|
  {
    if order != [] {
      assert claimed + [] == claimed;
      ClaimStops(cfg, w, backoff, order[1..], claimed);
    }
  }

  /** What the inner loop has taken after i rows, and that it stops at what a query's batch adds. */
  lemma TakenUpTo(w: World, one: bool, batch: seq<Id>, room: nat) returns (taken: nat -> seq<Id>)
    requires |batch| <= room
    ensures taken(0) == []
    ensures forall i: nat | i < |batch| :: taken(i + 1) == taken(i) + if batch[i] in w.controllers then [] else [batch[i]]
    ensures forall i: nat | i <= |batch| && (i == |batch| || (one && |taken(i)| == 1) || |taken(i)| >= room)
              && (one ==> |taken(i)| <= 1) :: taken(i) == Pick(w, one, batch)
  {
    taken := (i: nat) => if i <= |batch| then NotInFlight(w, batch[..i]) else [];
    forall i: nat | i < |batch| ensures taken(i + 1) == taken(i) + if batch[i] in w.controllers then [] else [batch[i]] {
      NotInFlightNext(w, batch, i);
    }
    forall i: nat | i <= |batch| && (i == |batch| || (one && |taken(i)| == 1) || |taken(i)| >= room) && (one ==> |taken(i)| <= 1)
      ensures taken(i) == Pick(w, one, batch)
    {
      PickIs(w, one, batch, i, taken(i), room);
    }
  }

  /** What the claim loop still comes to from the k-th state on. */
  lemma ClaimOfRest(cfg: Config, w: World, backoff: Backoff, order: seq<State>) returns (rest: (nat, seq<Id>) -> seq<Id>)
    ensures rest(0, []) == ClaimFrom(cfg, w, backoff, order, [])
    ensures forall k: nat, claimed: seq<Id> | k < |order| ::
      rest(k, claimed) == rest(k + 1, claimed + TakeFor(cfg, w, backoff, order[k], claimed))
    ensures forall k: nat, claimed: seq<Id> | k <= |order| && (k == |order| || |claimed| >= cfg.concurrency) ::
      rest(k, claimed) == claimed
  {
    rest := (k: nat, claimed: seq<Id>) => if k <= |order| then ClaimFrom(cfg, w, backoff, order[k..], claimed) else [];
    assert order[0..] == order;
    forall k: nat, claimed: seq<Id> | k < |order|
      ensures rest(k, claimed) == rest(k + 1, claimed + TakeFor(cfg, w, backoff, order[k], claimed))
    {
      ClaimNext(cfg, w, backoff, order, k, claimed);
    }
    forall k: nat, claimed: seq<Id> | k <= |order| && (k == |order| || |claimed| >= cfg.concurrency)
      ensures rest(k, claimed) == claimed
    {
      ClaimStops(cfg, w, backoff, order[k..], claimed);
    }
  }

  lemma ClaimNext(cfg: Config, w: World, backoff: Backoff, order: seq<State>, k: nat, claimed: seq<Id>)
    requires k < |order|
    ensures ClaimFrom(cfg, w, backoff, order[k..], claimed) ==
            ClaimFrom(cfg, w, backoff, order[k + 1..], claimed + TakeFor(cfg, w, backoff, order[k], claimed))
  {
    assert order[k..][0] == order[k] && order[k..][1..] == order[k + 1..];
  }

  function Settled(w: World, id: Id, halted: bool): World
    requires id in w.rows
  {
    (if halted then w.Put(id, IngestHalted, w.rows[id].complete) else w).Release(id)
  }

  lemma SettledForms(w: World, id: Id, halted: bool)
    requires id in w.rows
    ensures var w' := Settled(w, id, halted);
      && w'.rows.Keys == w.rows.Keys && w'.controllers == w.controllers - {id}
      && forall x | x in w.rows ::
           w'.rows[x] == if x == id && halted then Row(IngestHalted, w.rows[x].complete, w.rows[x].sip) else w.rows[x]
  {
  }

  lemma SettledIsAStep(cfg: Config, w: World, id: Id, threw: bool, written: bool)
    requires w.Valid() && id in w.controllers
    ensures Settled(w, id, threw && written) ==
            if threw then Apply(cfg, w, Label.Halt(id, written)) else Apply(cfg, w, Label.Settle(id))
  {
  }

  /** The local variables of a tick: database counts, then counters of rows admitted. */
  datatype Counts = Counts(
    midDb: nat, insideDb: nat, copyDb: nat,
    pipelineAdmitted: nat, amAdmitted: nat, stage6Admitted: nat)

  class Worker {
    const cfg: Config
    var rows: map<Id, Row>
    var controllers: map<Id, Dispatch>
    var pipelineDispatched: set<Id>
    var amDispatched: set<Id>
    var stage6Dispatched: set<Id>

    function W(): World
      reads this
    {
      World(rows, controllers, pipelineDispatched, amDispatched, stage6Dispatched)
    }

    constructor (cfg: Config, rows: map<Id, Row>)
      ensures this.cfg == cfg && W() == World(rows, map[], {}, {}, {})
    {
      this.cfg := cfg;
      this.rows := rows;
      controllers, pipelineDispatched, amDispatched, stage6Dispatched := map[], {}, {}, {};
    }

    /** The inner loop of the claim phase: what one state's query adds to `claimed`. `one` says
        that the state admits at most one row per tick. */
    method ClaimState(one: bool, batch: seq<Id>, claimed: seq<Id>) returns (claimed': seq<Id>)
      requires |claimed| + |batch| <= cfg.concurrency
      ensures claimed' == claimed + Pick(W(), one, batch)
    {
      ghost var taken := TakenUpTo(W(), one, batch, cfg.concurrency - |claimed|);
      claimed' := claimed;
      var i := 0;
      while i < |batch|
        invariant 0 <= i <= |batch| && claimed' == claimed + taken(i)
        invariant one ==> taken(i) == []
      {
        var id := batch[i];
        assert taken(i + 1) == taken(i) + if id in controllers then [] else [id];
        i := i + 1;
        if id in controllers { continue; }
        claimed' := claimed' + [id];
        if one || |claimed'| >= cfg.concurrency { break; }
      }
      assert claimed' == claimed + taken(i);
    }

    /** The counts read when the tick began, and the counters it has bumped since, agree with
        the table and with what has been claimed. */
    predicate Counted(n: Counts, claimed: seq<Id>)
      reads this
    {
      && (cfg.Serial() ==> n.midDb == CountIn(rows, IsMid))
      && (!cfg.amParallel ==> n.insideDb == CountIn(rows, IsAmInside))
      && (cfg.stage6Serial ==> n.copyDb == CountIn(rows, IsCopying))
      && (n.pipelineAdmitted > 0 <==> Admitted(rows, claimed, IsPipeline))
      && (n.amAdmitted > 0 <==> Admitted(rows, claimed, IsAmActive))
      && (n.stage6Admitted > 0 <==> Admitted(rows, claimed, IsStage6))
    }

    /** The `continue` checks of the claim loop. */
    method GateShut(st: State, n: Counts, ghost claimed: seq<Id>) returns (shut: bool)
      requires Counted(n, claimed)
      ensures shut <==> Gated(cfg, W(), st, claimed)
    {
      ghost var copyGated := CopyGated(cfg, W(), st, claimed);
      if cfg.stage6Serial && IsStage6(st) {
        if |stage6Dispatched| + n.stage6Admitted > 0 { return true; }
        if st.AipStorePending? && n.copyDb > 0 { return true; }
      }
      assert !copyGated;
      if cfg.Serial() && IsPipeline(st) {
        if |pipelineDispatched| + n.pipelineAdmitted > 0 { return true; }
        if st.Pending? && n.midDb > 0 { return true; }
      } else if !cfg.amParallel && !cfg.Serial() {
        if IsAmEntry(st) {
          if n.insideDb > 0 || |amDispatched| > 0 || n.amAdmitted > 0 { return true; }
        } else if IsAmInside(st) {
          if |amDispatched| + n.amAdmitted > 0 { return true; }
        }
      }
      return false;
    }

    /** One pass of the claim loop: consider one state. */
    method Consider(st: State, backoff: Backoff, n: Counts, claimed: seq<Id>) returns (n': Counts, claimed': seq<Id>)
      requires |claimed| < cfg.concurrency && Counted(n, claimed)
      ensures claimed' == claimed + TakeFor(cfg, W(), backoff, st, claimed)
      ensures Counted(n', claimed') && |claimed'| <= cfg.concurrency
    {
      n', claimed' := n, claimed;
      ghost var take := TakeFor(cfg, W(), backoff, st, claimed);
      var shut := GateShut(st, n, claimed);
      if shut {
        assert claimed + take == claimed;
        return;
      }
      var batch := Candidates(rows, backoff, st, cfg.concurrency - |claimed|);
      claimed' := ClaimState(OnePerTick(cfg, st), batch, claimed);
      assert claimed' == claimed + take;
      n' := Bump(st, n, |claimed'| - |claimed|, claimed, take);
    }

    /** The admit counters after `taken` rows in state st. */
    method Bump(st: State, n: Counts, taken: nat, ghost claimed: seq<Id>, ghost take: seq<Id>) returns (n': Counts)
      requires Counted(n, claimed) && taken == |take|
      requires forall id | id in take :: id in rows && rows[id].state == st
      ensures Counted(n', claimed + take)
    {
      n' := n;
      AdmittedAll(rows, claimed, take, st);
      if IsAmActive(st) { n' := n'.(amAdmitted := n.amAdmitted + taken); }
      if IsStage6(st) { n' := n'.(stage6Admitted := n.stage6Admitted + taken); }
      if IsPipeline(st) { n' := n'.(pipelineAdmitted := n.pipelineAdmitted + taken); }
    }

    /** The counts a tick reads before its loop. */
    method ReadCounts() returns (n: Counts)
      ensures Counted(n, [])
    {
      n := Counts(
        if cfg.Serial() then CountIn(rows, IsMid) else 0,
        if cfg.amParallel then 0 else CountIn(rows, IsAmInside),
        if cfg.stage6Serial then CountIn(rows, IsCopying) else 0,
        0, 0, 0);
    }

    method ClaimRows(order: seq<State>, backoff: Backoff) returns (claimed: seq<Id>)
      ensures claimed == ClaimFrom(cfg, W(), backoff, order, [])
    {
      ghost var rest := ClaimOfRest(cfg, W(), backoff, order);
      var n := ReadCounts();
      claimed := [];
      var k := 0;
      while k < |order| && |claimed| < cfg.concurrency
        invariant 0 <= k <= |order|
        invariant |claimed| <= cfg.concurrency && Counted(n, claimed)
        invariant rest(0, []) == rest(k, claimed)
      {
        n, claimed := Consider(order[k], backoff, n, claimed);
        k := k + 1;
      }
    }

    /** One claim phase and the dispatches that follow it. Nothing is dispatched while the worker
        is stopping or disabled, nor when one of the claim phase's queries fails. */
    method Tick(stopping: bool, enabled: bool, queried: bool, backoff: Backoff)
      modifies this
      ensures stopping || !enabled || !queried ==> W() == old(W())
      ensures !stopping && enabled && queried ==> W() == Apply(cfg, old(W()), Label.Tick(backoff))
      ensures !stopping && enabled && queried ==>
        var claims := ClaimForms.Claims(cfg, old(W()), ClaimForms.FreeRows(old(W()), backoff));
        (forall id | id in claims :: id in old(rows)) && Dispatched(old(W()), W(), claims)
    {
      if stopping || !enabled || !queried { return; }
      var claimed := ClaimRows(cfg.ClaimOrder(), backoff);
      ClaimedRowsOpen(cfg, W(), backoff, cfg.ClaimOrder(), []);
      DispatchForms(W(), claimed);
      ClaimForms.ClaimIs(cfg, W(), backoff);
      DispatchClaimed(claimed);
    }

    method DispatchClaimed(ids: seq<Id>)
      requires forall id | id in ids :: id in rows
      modifies this
      ensures W() == DispatchAll(old(W()), ids)
    {
      ghost var w0 := W();
      var k := 0;
      while k < |ids|
        invariant 0 <= k <= |ids| && rows == w0.rows
        invariant W() == DispatchAll(w0, ids[..k])
      {
        assert ids[..k + 1] == ids[..k] + [ids[k]] && ids[k] in ids;
        assert forall x | x in ids[..k] :: x in ids;
        DispatchAllSnoc(w0, ids[..k], ids[k]);
        DispatchOneRow(ids[k]);
        k := k + 1;
      }
      assert ids[..k] == ids;
    }

    /** dispatch_one up to the await. */
    method DispatchOneRow(id: Id)
      requires id in rows
      modifies this
      ensures W() == DispatchOne(old(W()), id)
    {
      var st := rows[id].state;
      controllers := controllers[id := Dispatch(st, false)];
      if IsAmActive(st) { amDispatched := amDispatched + {id}; }
      if IsPipeline(st) { pipelineDispatched := pipelineDispatched + {id}; }
      if IsStage6(st) { stage6Dispatched := stage6Dispatched + {id}; }
    }

    /** dispatch_one after the await: `threw` when the stage threw, `written` when the halt
        write went through. */
    method Settle(id: Id, threw: bool, written: bool)
      requires W().Valid() && id in controllers
      modifies this
      ensures W() == Settled(old(W()), id, threw && written)
      ensures rows.Keys == old(rows).Keys && forall x | x in rows ::
        rows[x] == if x == id && threw && written then Row(IngestHalted, old(rows)[x].complete, old(rows)[x].sip) else old(rows)[x]
      ensures controllers == old(controllers) - {id} && pipelineDispatched == old(pipelineDispatched) - {id}
      ensures amDispatched == old(amDispatched) - {id} && stage6Dispatched == old(stage6Dispatched) - {id}
    {
      var entry := controllers[id].entry;
      if threw && written {
        rows := rows[id := rows[id].(state := IngestHalted)];
      }
      controllers := controllers - {id};
      if IsAmActive(entry) { amDispatched := amDispatched - {id}; }
      if IsPipeline(entry) { pipelineDispatched := pipelineDispatched - {id}; }
      if IsStage6(entry) { stage6Dispatched := stage6Dispatched - {id}; }
      assert amDispatched == old(amDispatched) - {id};
      assert pipelineDispatched == old(pipelineDispatched) - {id};
      assert stage6Dispatched == old(stage6Dispatched) - {id};
      SettledForms(old(W()), id, threw && written);
    }

    /** The worker's half of a staff cancel: signal the abort controller, if there is one. */
    method CancelRow(id: Id) returns (aborted: bool)
      modifies this
      ensures aborted <==> id in old(controllers)
      ensures W() == Abort(old(W()), id)
      ensures rows == old(rows) && controllers.Keys == old(controllers).Keys
      ensures forall x | x in controllers ::
        controllers[x] == Dispatch(old(controllers)[x].entry, old(controllers)[x].aborted || x == id)
    {
      aborted := id in controllers;
      if aborted {
        controllers := controllers[id := controllers[id].(aborted := true)];
      }
    }

    /** start(): sweep rows crashed mid-step back to Pending, then finalize completed ones. */
    method Boot()
      requires controllers == map[] && W().Valid()
      modifies this
      ensures var orphans := set id | id in old(rows) && !old(rows)[id].complete && IsActivelyRunning(old(rows)[id].state);
        && Enabled(old(W()), ResetOrphans(orphans))
        && W() == Apply(cfg, Apply(cfg, old(W()), ResetOrphans(orphans)), FinalizeCompletes)
      ensures controllers == map[] && rows.Keys == old(rows).Keys && forall x | x in rows :: var r := old(rows)[x];
        rows[x] == if !r.complete && IsActivelyRunning(r.state) then Row(Pending, false, r.sip)
                   else if r.state == Complete then Row(Complete, true, r.sip) else r
    {
      var orphans := set id | id in rows && !rows[id].complete && IsActivelyRunning(rows[id].state);
      var done: set<Id> := {};
      ghost var w0 := W();
      assert PutAll(rows, {}, Pending, false) == rows;
      while orphans - done != {}
        invariant done <= orphans <= w0.rows.Keys
        invariant W() == w0.(rows := PutAll(w0.rows, done, Pending, false))
        decreases orphans - done
      {
        var id :| id in orphans - done;
        PutOneMore(w0.rows, done, id);
        rows := rows[id := rows[id].(state := Pending)];
        done := done + {id};
      }
      assert done == orphans;
      rows := Finalized(rows);
    }
  }

  lemma PutOneMore(rows: map<Id, Row>, done: set<Id>, id: Id)
    requires id in rows && id !in done
    ensures var soFar := PutAll(rows, done, Pending, false);
      id in soFar && PutAll(rows, done + {id}, Pending, false) == soFar[id := soFar[id].(state := Pending)]
  {
  }
}
