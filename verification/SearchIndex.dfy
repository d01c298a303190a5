/** The search index beside the object table. A row's is_updated flag is the whole queue: a
    claim clears it, hands a snapshot of the row to Elasticsearch, and the answer settles it.

    Each database statement or transaction and each Elasticsearch answer is one atomic step;
    everything else may happen in between. */
module SearchIndex {
  import opened Basics

  type Pid = nat        // rows are kept in id order, and a row's index stands for its pid
  type Doc = string     // a rendered projection

  datatype Obj = Obj(
    published: bool, active: bool, collection: string, doc: Doc,
    dirty: bool, indexed: bool, attempts: nat, error: Option<string>)

  predicate Eligible(o: Obj) {
    o.published && o.active
  }

  /** What Elasticsearch should hold for a row. */
  function Target(o: Obj): Option<Doc> {
    if Eligible(o) then Some(o.doc) else None
  }

  type Es = map<Pid, Doc>

  function Lookup(es: Es, p: Pid): Option<Doc> {
    if p in es then Some(es[p]) else None
  }

  /** One batch between its claim and its last database write. */
  datatype Flight =
    | Sent(snaps: map<Pid, Obj>)
    | Thrown(pids: set<Pid>)
    | Answered(indexed: set<Pid>, deindexed: set<Pid>, failed: map<Pid, string>)

  /** Lost holds the rows whose mark a crash or a failed database write has destroyed; dropped
      says that the index has been deleted and the rows are not yet reset. */
  datatype World = World(table: seq<Obj>, es: Es, flights: seq<Flight>, lost: set<Pid>, dropped: bool)

  // --- the table operations of the indexer's model ------------------------------------------

  /** Number.parseInt(x, 10) || 5, where None is NaN. */
  function OrFive(x: Option<int>): int {
    if x.None? || x.value == 0 then 5 else x.value
  }

  function ClaimCap(limit: Option<int>): (cap: nat)
    ensures 1 <= cap <= 100
  {
    Max(1, Min(100, OrFive(limit)))
  }

  function AttemptCap(max: Option<int>): (cap: nat)
    ensures 1 <= cap
  {
    Max(1, OrFive(max))
  }

  /** The ids the claim's SELECT returns: the lowest dirty ids, at most cap of them. */
  function DirtyIds(table: seq<Obj>, from: nat, cap: nat): seq<Pid>
    requires from <= |table|
    decreases |table| - from
  {
    if from == |table| || cap == 0 then []
    else if table[from].dirty then [from] + DirtyIds(table, from + 1, cap - 1)
    else DirtyIds(table, from + 1, cap)
  }

  function Claimed(table: seq<Obj>, limit: Option<int>): set<Pid> {
    set p | p in DirtyIds(table, 0, ClaimCap(limit))
  }

  function Reason(err: string): string {
    var e := if err == "" then "index failed" else err;
    if |e| <= 1000 then e else e[..1000]
  }

  function Marked(o: Obj, indexed: bool): Obj {
    o.(indexed := indexed, attempts := 0, error := None)
  }

  /** record_failures on one row. */
  function Failed(o: Obj, cap: nat, err: string): Obj {
    if o.attempts + 1 >= cap
    then o.(attempts := o.attempts + 1, dirty := false, error := Some(Reason(err)))
    else o.(attempts := o.attempts + 1, dirty := true)
  }

  function Refreshed(o: Obj): Obj {
    o.(dirty := true, attempts := 0, error := None)
  }

  // --- steps -----------------------------------------------------------------------------------

  datatype Step =
    | Insert(o: Obj)
    | Mutate(p: Pid, published: bool, active: bool, collection: string, doc: Doc)
    | Claim(limit: Option<int>)
    | BuildThrew(k: nat)                               // shaping an op threw, before the bulk call
    | Throw(k: nat, landed: set<Pid>)                  // the bulk call threw; some items may have landed
    | Return(k: nat, rejected: map<Pid, string>)       // the bulk call answered item by item
    | Requeue(k: nat, saved: bool)
    | MarkIndexed(k: nat, saved: bool)
    | MarkDeindexed(k: nat, saved: bool)
    | Record(k: nat, max: Option<int>, saved: bool)
    | DirtyAll
    | DirtyCollection(collection: string)
    | DirtyPid(p: Pid)
    | RetryDeadLettered
    | DropIndex
    | ResetAll
    | Crash

  function Pids(f: Flight): set<Pid> {
    match f
    case Sent(snaps) => snaps.Keys
    case Thrown(pids) => pids
    case Answered(indexed, deindexed, failed) => indexed + deindexed + failed.Keys
  }

  /** The rows of a batch whose Elasticsearch document is not confirmed. */
  function Pending(f: Flight): set<Pid> {
    match f
    case Sent(snaps) => snaps.Keys
    case Thrown(pids) => pids
    case Answered(_, _, failed) => failed.Keys
  }

  predicate InFlight(flights: seq<Flight>, p: Pid) {
    exists k :: 0 <= k < |flights| && p in Pids(flights[k])
  }

  predicate Unconfirmed(flights: seq<Flight>, p: Pid) {
    exists k :: 0 <= k < |flights| && p in Pending(flights[k])
  }

  predicate Enabled(w: World, s: Step) {
    match s
    case Insert(o) => !o.indexed && (o.dirty || !Eligible(o))
    case Mutate(p, _, _, _, _) => p < |w.table|
    case Claim(_) => true
    case BuildThrew(k) => k < |w.flights| && w.flights[k].Sent?
    case Throw(k, landed) => k < |w.flights| && w.flights[k].Sent? && landed <= w.flights[k].snaps.Keys
    case Return(k, rejected) => k < |w.flights| && w.flights[k].Sent? && rejected.Keys <= w.flights[k].snaps.Keys
    case Requeue(k, _) => k < |w.flights| && w.flights[k].Thrown?
    case MarkIndexed(k, _) => k < |w.flights| && w.flights[k].Answered?
    case MarkDeindexed(k, _) => k < |w.flights| && w.flights[k].Answered?
    case Record(k, _, _) => k < |w.flights| && w.flights[k].Answered?
    case DirtyPid(p) => p < |w.table|
    case _ => true
  }

  /** Applies the documents of `ok`: an eligible snapshot is indexed, any other deleted. */
  function Written(es: Es, snaps: map<Pid, Obj>, ok: set<Pid>): Es
    requires ok <= snaps.Keys
  {
    map p | p in es.Keys + ok && (p in ok ==> Eligible(snaps[p])) :: if p in ok then snaps[p].doc else es[p]
  }

  /** process_batch sorts the items by outcome and by op. */
  function AnswerOf(snaps: map<Pid, Obj>, rejected: map<Pid, string>): Flight {
    Answered((set p | p in snaps && p !in rejected && Eligible(snaps[p])),
             (set p | p in snaps && p !in rejected && !Eligible(snaps[p])), rejected)
  }

  function OnRows(table: seq<Obj>, f: Obj -> Obj, at: (Pid, Obj) -> bool): seq<Obj> {
    seq(|table|, i requires 0 <= i < |table| => if at(i, table[i]) then f(table[i]) else table[i])
  }

  function AfterRecord(table: seq<Obj>, failed: map<Pid, string>, cap: nat): seq<Obj> {
    seq(|table|, i requires 0 <= i < |table| => if i in failed then Failed(table[i], cap, failed[i]) else table[i])
  }

  function SnapshotOf(table: seq<Obj>, ids: set<Pid>): map<Pid, Obj> {
    map p | p in ids && p < |table| :: table[p].(dirty := false)
  }

  function Apply(w: World, s: Step): World
    requires Enabled(w, s)
  {
    match s
    case Insert(o) => w.(table := w.table + [o])
    case Mutate(p, pub, act, coll, doc) =>
      w.(table := w.table[p := w.table[p].(published := pub, active := act, collection := coll, doc := doc, dirty := true)])
    case Claim(limit) =>
      var ids := Claimed(w.table, limit);
      w.(table := OnRows(w.table, (o: Obj) => o.(dirty := false), (p: Pid, o: Obj) => p in ids),
         flights := w.flights + [Sent(SnapshotOf(w.table, ids))],
         lost := w.lost - ids)
    case BuildThrew(k) =>
      w.(lost := w.lost + w.flights[k].snaps.Keys, flights := w.flights[k := Thrown({})])
    case Throw(k, landed) =>
      w.(es := Written(w.es, w.flights[k].snaps, landed), flights := w.flights[k := Thrown(w.flights[k].snaps.Keys)])
    case Return(k, rejected) =>
      var snaps := w.flights[k].snaps;
      w.(es := Written(w.es, snaps, snaps.Keys - rejected.Keys),
         flights := w.flights[k := AnswerOf(snaps, rejected)])
    case Requeue(k, saved) =>
      var pids := w.flights[k].pids;
      if saved
      then w.(table := OnRows(w.table, (o: Obj) => o.(dirty := true), (p: Pid, o: Obj) => p in pids),
              flights := w.flights[k := Thrown({})])
      else w.(lost := w.lost + pids, flights := w.flights[k := Thrown({})])
    case MarkIndexed(k, saved) =>
      var pids := w.flights[k].indexed;
      w.(table := if saved then OnRows(w.table, (o: Obj) => Marked(o, true), (p: Pid, o: Obj) => p in pids) else w.table,
         flights := w.flights[k := w.flights[k].(indexed := {})])
    case MarkDeindexed(k, saved) =>
      var pids := w.flights[k].deindexed;
      w.(table := if saved then OnRows(w.table, (o: Obj) => Marked(o, false), (p: Pid, o: Obj) => p in pids) else w.table,
         flights := w.flights[k := w.flights[k].(deindexed := {})])
    case Record(k, max, saved) =>
      var failed := w.flights[k].failed;
      var flights := w.flights[k := w.flights[k].(failed := map[])];
      if saved then w.(table := AfterRecord(w.table, failed, AttemptCap(max)), flights := flights)
      else w.(lost := w.lost + failed.Keys, flights := flights)
    case DirtyAll => w.(table := OnRows(w.table, (o: Obj) => Refreshed(o), (p: Pid, o: Obj) => Eligible(o)))
    case DirtyCollection(c) =>
      w.(table := OnRows(w.table, (o: Obj) => Refreshed(o), (p: Pid, o: Obj) => Eligible(o) && o.collection == c))
    case DirtyPid(p) => w.(table := w.table[p := Refreshed(w.table[p])])
    case RetryDeadLettered => w.(table := OnRows(w.table, (o: Obj) => Refreshed(o), (p: Pid, o: Obj) => o.error.Some?))
    case DropIndex => w.(es := map[], lost := {}, dropped := true)
    case ResetAll =>
      w.(table := OnRows(w.table, (o: Obj) => Refreshed(o).(indexed := false), (p: Pid, o: Obj) => Eligible(o)), dropped := false)
    case Crash =>
      w.(flights := [], lost := w.lost + set p: Pid | p < |w.table| && Unconfirmed(w.flights, p))
  }

  // --- the invariant -----------------------------------------------------------------------------

  predicate InSync(w: World, p: Pid)
    requires p < |w.table|
  {
    Lookup(w.es, p) == Target(w.table[p])
  }

  /** The drop has emptied the index and the reset that follows will re-dirty the row. */
  predicate AwaitsReset(w: World, p: Pid)
    requires p < |w.table|
  {
    w.dropped && Eligible(w.table[p])
  }

  /** Every row is dirty, in an unsettled batch, dead-lettered, or in sync; a lost mark and the
      rebuild window are the only other excuses. */
  predicate Accounted(w: World, p: Pid)
    requires p < |w.table|
  {
    w.table[p].dirty || Unconfirmed(w.flights, p) || w.table[p].error.Some? || InSync(w, p)
    || p in w.lost || AwaitsReset(w, p)
  }

  ghost predicate Agreement(w: World) {
    && (forall p: Pid | p < |w.table| :: Accounted(w, p))
    && (forall p | p in w.es :: p < |w.table|)
  }

  ghost predicate FlightInv(w: World, f: Flight) {
    && (forall p | p in Pids(f) :: p < |w.table|)
    && (f.Sent? ==> forall p | p in f.snaps :: w.table[p].dirty || Target(f.snaps[p]) == Target(w.table[p]))
    && (f.Answered? ==> f.failed.Keys !! f.indexed + f.deindexed)
  }

  /** The documents of an answered batch's successes are in place. */
  ghost predicate Confirmed(w: World, f: Flight) {
    f.Answered? ==> forall p | p in f.indexed + f.deindexed && p < |w.table| :: w.table[p].dirty || InSync(w, p) || AwaitsReset(w, p)
  }

  ghost predicate Flights(w: World) {
    && (forall k | 0 <= k < |w.flights| :: FlightInv(w, w.flights[k]))
    && (forall j, k | 0 <= j < k < |w.flights| :: Pids(w.flights[j]) !! Pids(w.flights[k]))
  }

  ghost predicate Inv(w: World) {
    && Flights(w) && Agreement(w)
    && (forall k | 0 <= k < |w.flights| :: Confirmed(w, w.flights[k]))
  }

  /** Ticks may overlap, but no claim takes a row that an earlier tick still holds. */
  predicate NoOverlap(w: World, s: Step) {
    s.Claim? ==> forall p | p in Claimed(w.table, s.limit) :: !InFlight(w.flights, p)
  }

  // --- one step keeps the invariant ------------------------------------------------------------

  /** Steps that only insert rows and set is_updated. */
  lemma DirtyingKeeps(w: World, table: seq<Obj>, dropped: bool)
    requires Inv(w) && |w.table| <= |table|
    requires forall p: Pid | p < |w.table| :: table[p] == w.table[p] || table[p].dirty
    requires forall p: Pid | |w.table| <= p < |table| :: table[p].dirty || !Eligible(table[p])
    requires w.dropped && !dropped ==> forall p: Pid | p < |table| :: Eligible(table[p]) ==> table[p].dirty
    requires dropped ==> w.dropped
    ensures Inv(w.(table := table, dropped := dropped))
  {
    var w' := w.(table := table, dropped := dropped);
    forall k | 0 <= k < |w'.flights| ensures FlightInv(w', w'.flights[k]) && Confirmed(w', w'.flights[k]) {
      DirtyingKeepsFlight(w, w.flights[k], w');
    }
    forall p: Pid | p < |table| ensures Accounted(w', p) {
      if p < |w.table| { assert Accounted(w, p); }
    }
  }

  lemma DirtyingKeepsFlight(w: World, f: Flight, w': World)
    requires FlightInv(w, f) && Confirmed(w, f) && |w.table| <= |w'.table| && w'.es == w.es
    requires forall p: Pid | p < |w.table| :: w'.table[p] == w.table[p] || w'.table[p].dirty
    requires w.dropped && !w'.dropped ==> forall p: Pid | p < |w'.table| :: Eligible(w'.table[p]) ==> w'.table[p].dirty
    ensures FlightInv(w', f) && Confirmed(w', f)
  {
    if f.Answered? {
      forall p | p in f.indexed + f.deindexed ensures p < |w.table| && (w'.table[p].dirty || InSync(w', p) || AwaitsReset(w', p)) {
        assert p in Pids(f);
      }
    }
  }

  lemma UnconfirmedAfter(flights: seq<Flight>, k: nat, f: Flight, p: Pid)
    requires k < |flights|
    ensures Unconfirmed(flights, p) && p !in Pending(flights[k]) ==> Unconfirmed(flights[k := f], p)
    ensures p in Pending(f) ==> Unconfirmed(flights[k := f], p)
  {
    var after := flights[k := f];
    assert after[k] == f;
    if Unconfirmed(flights, p) && p !in Pending(flights[k]) {
      var j :| 0 <= j < |flights| && p in Pending(flights[j]);
      assert after[j] == flights[j];
    }
  }

  lemma ClaimKeeps(w: World, limit: Option<int>)
    requires Inv(w) && NoOverlap(w, Claim(limit))
    ensures Inv(Apply(w, Claim(limit)))
  {
    var w' := Apply(w, Claim(limit));
    var ids := Claimed(w.table, limit);
    var n := |w.flights|;
    DirtyIdsAre(w.table, 0, ClaimCap(limit));
    assert w'.flights[n].snaps.Keys == ids;
    assert forall j | 0 <= j < n :: w'.flights[j] == w.flights[j];
    forall j, k | 0 <= j < k < |w'.flights| ensures Pids(w'.flights[j]) !! Pids(w'.flights[k]) {
      if k == n {
        forall p | p in Pids(w'.flights[j]) ensures p !in ids { assert InFlight(w.flights, p); }
      }
    }
    forall k | 0 <= k < |w'.flights| ensures FlightInv(w', w'.flights[k]) && Confirmed(w', w'.flights[k]) {
      if k < n {
        assert FlightInv(w, w.flights[k]) && Confirmed(w, w.flights[k]);
        forall p | p in Pids(w.flights[k]) ensures p !in ids { assert InFlight(w.flights, p); }
      }
    }
    forall p: Pid | p < |w'.table| ensures Accounted(w', p) {
      assert Accounted(w, p);
      if p in ids {
        assert p in Pending(w'.flights[n]);
      } else if Unconfirmed(w.flights, p) {
        var k :| 0 <= k < n && p in Pending(w.flights[k]);
        assert p in Pending(w'.flights[k]);
      }
    }
  }

  lemma {:induction false} DirtyIdsAre(table: seq<Obj>, from: nat, cap: nat)
    requires from <= |table|
    ensures |DirtyIds(table, from, cap)| <= cap
    ensures forall p | p in DirtyIds(table, from, cap) :: from <= p < |table| && table[p].dirty
    ensures forall p: Pid | from <= p < |table| && table[p].dirty && p !in DirtyIds(table, from, cap) ::
      |DirtyIds(table, from, cap)| == cap && forall q | q in DirtyIds(table, from, cap) :: q < p
    decreases |table| - from
  {
    if from < |table| && cap > 0 {
      DirtyIdsAre(table, from + 1, if table[from].dirty then cap - 1 else cap);
    }
  }

  /** Elasticsearch after a batch's items of `ok` have been applied. */
  lemma WrittenLookup(es: Es, snaps: map<Pid, Obj>, ok: set<Pid>, p: Pid)
    requires ok <= snaps.Keys
    ensures Lookup(Written(es, snaps, ok), p) == if p in ok then Target(snaps[p]) else Lookup(es, p)
  {
  }

  /** Steps that settle part of batch k: the documents and rows of other batches are left alone. */
  lemma SettleKeeps(w: World, k: nat, w': World)
    requires Inv(w) && k < |w.flights|
    requires |w'.table| == |w.table| && w'.dropped == w.dropped
    requires |w'.flights| == |w.flights| && w'.flights == w.flights[k := w'.flights[k]]
    requires Pids(w'.flights[k]) <= Pids(w.flights[k])
    requires forall p: Pid | p < |w.table| && p !in Pids(w.flights[k]) ::
      w'.table[p] == w.table[p] && Lookup(w'.es, p) == Lookup(w.es, p) && (p in w.lost ==> p in w'.lost)
    requires forall p | p in Pids(w.flights[k]) && p < |w.table| :: Accounted(w', p)
    requires forall p | p in w'.es :: p < |w.table|
    requires FlightInv(w', w'.flights[k]) && Confirmed(w', w'.flights[k])
    ensures Inv(w')
  {
    forall j | 0 <= j < |w'.flights| ensures FlightInv(w', w'.flights[j]) && Confirmed(w', w'.flights[j]) {
      if j != k {
        assert w'.flights[j] == w.flights[j];
        assert FlightInv(w, w.flights[j]) && Confirmed(w, w.flights[j]);
        assert Pids(w.flights[j]) !! Pids(w.flights[k]);
      }
    }
    forall i, j | 0 <= i < j < |w'.flights| ensures Pids(w'.flights[i]) !! Pids(w'.flights[j]) {
      assert Pids(w.flights[i]) !! Pids(w.flights[j]);
      assert Pids(w'.flights[i]) <= Pids(w.flights[i]) && Pids(w'.flights[j]) <= Pids(w.flights[j]);
    }
    forall p: Pid | p < |w'.table| ensures Accounted(w', p) {
      if p !in Pids(w.flights[k]) {
        assert Accounted(w, p);
        assert Pending(w.flights[k]) <= Pids(w.flights[k]);
        UnconfirmedAfter(w.flights, k, w'.flights[k], p);
      }
    }
  }

  lemma ThrowKeeps(w: World, k: nat, landed: set<Pid>)
    requires Inv(w) && Enabled(w, Throw(k, landed))
    ensures Inv(Apply(w, Throw(k, landed)))
  {
    var w' := Apply(w, Throw(k, landed));
    assert FlightInv(w, w.flights[k]);
    forall p: Pid ensures Lookup(w'.es, p) == if p in landed then Target(w.flights[k].snaps[p]) else Lookup(w.es, p) {
      WrittenLookup(w.es, w.flights[k].snaps, landed, p);
    }
    forall p | p in Pids(w.flights[k]) ensures Accounted(w', p) {
      assert p in Pending(w'.flights[k]);
    }
    SettleKeeps(w, k, w');
  }

  lemma ReturnKeeps(w: World, k: nat, rejected: map<Pid, string>)
    requires Inv(w) && Enabled(w, Return(k, rejected))
    ensures Inv(Apply(w, Return(k, rejected)))
  {
    var w' := Apply(w, Return(k, rejected));
    var snaps := w.flights[k].snaps;
    assert FlightInv(w, w.flights[k]);
    forall p: Pid ensures Lookup(w'.es, p) == if p in snaps && p !in rejected then Target(snaps[p]) else Lookup(w.es, p) {
      WrittenLookup(w.es, snaps, snaps.Keys - rejected.Keys, p);
    }
    forall p | p in Pids(w.flights[k]) ensures Accounted(w', p) {
      assert p in rejected ==> p in Pending(w'.flights[k]);
    }
    SettleKeeps(w, k, w');
  }

  lemma BuildThrewKeeps(w: World, k: nat)
    requires Inv(w) && Enabled(w, BuildThrew(k))
    ensures Inv(Apply(w, BuildThrew(k)))
  {
    assert FlightInv(w, w.flights[k]);
    SettleKeeps(w, k, Apply(w, BuildThrew(k)));
  }

  lemma RequeueKeeps(w: World, k: nat, saved: bool)
    requires Inv(w) && Enabled(w, Requeue(k, saved))
    ensures Inv(Apply(w, Requeue(k, saved)))
  {
    assert FlightInv(w, w.flights[k]);
    SettleKeeps(w, k, Apply(w, Requeue(k, saved)));
  }

  lemma MarkKeeps(w: World, k: nat, s: Step)
    requires Inv(w) && Enabled(w, s) && ((s.MarkIndexed? && s.k == k) || (s.MarkDeindexed? && s.k == k))
    ensures Inv(Apply(w, s))
  {
    var w' := Apply(w, s);
    var f, f' := w.flights[k], w'.flights[k];
    assert FlightInv(w, f) && Confirmed(w, f);
    forall p | p in Pids(f) ensures Accounted(w', p) {
      assert Accounted(w, p);
      if p !in f.indexed + f.deindexed {
        assert p in Pending(f');
      }
    }
    SettleKeeps(w, k, w');
  }

  lemma RecordKeeps(w: World, k: nat, max: Option<int>, saved: bool)
    requires Inv(w) && Enabled(w, Record(k, max, saved))
    ensures Inv(Apply(w, Record(k, max, saved)))
  {
    var w' := Apply(w, Record(k, max, saved));
    var f := w.flights[k];
    assert FlightInv(w, f) && Confirmed(w, f);
    forall p | p in Pids(f) ensures Accounted(w', p) {
      assert Accounted(w, p);
    }
    SettleKeeps(w, k, w');
  }

  /** Whatever the index held, dropping it leaves every row accounted for. */
  lemma DropHeals(w: World)
    requires Flights(w)
    ensures Inv(Apply(w, DropIndex))
  {
    var w' := Apply(w, DropIndex);
    forall k | 0 <= k < |w'.flights| ensures FlightInv(w', w'.flights[k]) && Confirmed(w', w'.flights[k]) {
      assert FlightInv(w, w.flights[k]);
    }
  }

  lemma CrashKeeps(w: World)
    requires Inv(w)
    ensures Inv(Apply(w, Crash))
  {
    var w' := Apply(w, Crash);
    forall p: Pid | p < |w'.table| ensures Accounted(w', p) {
      assert Accounted(w, p);
    }
  }

  lemma StepKeepsInv(w: World, s: Step)
    requires Inv(w) && Enabled(w, s) && NoOverlap(w, s)
    ensures Inv(Apply(w, s))
  {
    match s
    case Claim(limit) => ClaimKeeps(w, limit);
    case BuildThrew(k) => BuildThrewKeeps(w, k);
    case Throw(k, landed) => ThrowKeeps(w, k, landed);
    case Return(k, rejected) => ReturnKeeps(w, k, rejected);
    case Requeue(k, saved) => RequeueKeeps(w, k, saved);
    case MarkIndexed(k, _) => MarkKeeps(w, k, s);
    case MarkDeindexed(k, _) => MarkKeeps(w, k, s);
    case Record(k, max, saved) => RecordKeeps(w, k, max, saved);
    case DropIndex => DropHeals(w);
    case Crash => CrashKeeps(w);
    case _ => DirtyingKeeps(w, Apply(w, s).table, Apply(w, s).dropped);
  }

  // --- runs -----------------------------------------------------------------------------------

  ghost predicate IsRun(ws: seq<World>, steps: seq<Step>) {
    && |ws| == |steps| + 1
    && forall k | 0 <= k < |steps| :: Enabled(ws[k], steps[k]) && ws[k + 1] == Apply(ws[k], steps[k])
  }

  predicate LosesNothing(s: Step) {
    !s.Crash? && !s.BuildThrew? && (s.Requeue? || s.Record? ==> s.saved)
  }

  /** INDEX AGREEMENT. Whatever is interleaved with whatever, as long as no claim takes a row that
      an earlier batch still holds: every row is dirty, in a batch, dead-lettered, or in sync, or
      its mark was lost with a batch, or the index is being rebuilt. A mark is lost only with a
      batch that held its row, to a crash, to a failed database write or to a row whose op cannot be shaped. */
  lemma {:induction false} IndexAgrees(ws: seq<World>, steps: seq<Step>, n: nat)
    requires IsRun(ws, steps) && n < |ws|
    requires Inv(ws[0]) && ws[0].lost == {}
    requires forall k | 0 <= k < |steps| :: NoOverlap(ws[k], steps[k])
    ensures Inv(ws[n])
    ensures forall p | p in ws[n].lost ::
      exists k :: 0 <= k < n && !LosesNothing(steps[k]) && InFlight(ws[k].flights, p)
  {
    if n > 0 {
      IndexAgrees(ws, steps, n - 1);
      StepKeepsInv(ws[n - 1], steps[n - 1]);
      LostWith(ws[n - 1], steps[n - 1]);
    }
  }

  /** A step loses only the marks of a batch it destroys. */
  lemma LostWith(w: World, s: Step)
    requires Enabled(w, s)
    ensures forall p | p in Apply(w, s).lost && p !in w.lost :: !LosesNothing(s) && InFlight(w.flights, p)
  {
    forall p | p in Apply(w, s).lost && p !in w.lost ensures !LosesNothing(s) && InFlight(w.flights, p) {
      match s
      case Crash =>
        var j :| 0 <= j < |w.flights| && p in Pending(w.flights[j]);
        assert p in Pids(w.flights[j]);
      case BuildThrew(k) => assert p in Pids(w.flights[k]);
      case Requeue(k, _) => assert p in Pids(w.flights[k]);
      case Record(k, _, _) => assert p in Pids(w.flights[k]);
    }
  }

  // --- a drained queue ---------------------------------------------------------------------------

  predicate Quiet(w: World) {
    && !w.dropped
    && (forall p: Pid | p < |w.table| :: !w.table[p].dirty)
    && (forall k | 0 <= k < |w.flights| :: Pending(w.flights[k]) == {})
  }

  /** The index that the table calls for, leaving out the dead-lettered rows. */
  function Expected(table: seq<Obj>): Es {
    map p: Pid | p < |table| && Eligible(table[p]) && table[p].error.None? :: table[p].doc
  }

  function LiveDocs(w: World): Es {
    map p | p in w.es && !(p < |w.table| && w.table[p].error.Some?) :: w.es[p]
  }

  /** Once nothing is dirty or in flight, the index holds exactly the projections of the eligible
      rows, dead-lettered rows apart, if no mark was lost. */
  lemma QuietIsExact(w: World)
    requires Inv(w) && Quiet(w)
    ensures forall p: Pid | p < |w.table| && w.table[p].error.None? && p !in w.lost :: InSync(w, p)
    ensures w.lost == {} ==> LiveDocs(w) == Expected(w.table)
  {
    forall p: Pid | p < |w.table| && w.table[p].error.None? && p !in w.lost ensures InSync(w, p) {
      assert Accounted(w, p);
    }
    if w.lost == {} {
      assert forall p: Pid | p < |w.table| && w.table[p].error.None? :: Lookup(w.es, p) == Target(w.table[p]);
      forall p: Pid ensures p in LiveDocs(w) <==> p in Expected(w.table) {
      }
      assert LiveDocs(w).Keys == Expected(w.table).Keys;
    }
  }

  /** REBUILD. Whatever the index and the flags held, and whatever batches were in flight at the
      drop: once the rows have been reset and the queue has drained, the index is exact. */
  lemma RebuildIsExact(ws: seq<World>, steps: seq<Step>, d: nat, r: nat)
    requires IsRun(ws, steps) && d < r < |steps|
    requires steps[d].DropIndex? && steps[r].ResetAll? && Flights(ws[d])
    requires forall k | d < k < |steps| :: NoOverlap(ws[k], steps[k]) && LosesNothing(steps[k])
    requires forall k | r < k < |steps| :: !steps[k].DropIndex?
    requires forall p: Pid | p < |ws[|steps|].table| :: !ws[|steps|].table[p].dirty
    requires forall k | 0 <= k < |ws[|steps|].flights| :: Pending(ws[|steps|].flights[k]) == {}
    ensures LiveDocs(ws[|steps|]) == Expected(ws[|steps|].table)
  {
    DropHeals(ws[d]);
    var ws', steps' := ws[d + 1..], steps[d + 1..];
    assert ws'[0] == ws[d + 1];
    forall k | 0 <= k < |steps'| ensures Enabled(ws'[k], steps'[k]) && ws'[k + 1] == Apply(ws'[k], steps'[k]) {
      assert ws'[k] == ws[d + 1 + k] && ws'[k + 1] == ws[d + 1 + k + 1] && steps'[k] == steps[d + 1 + k];
    }
    IndexAgrees(ws', steps', |steps'|);
    StaysUp(ws, steps, r, |steps|);
    assert ws'[|steps'|] == ws[|steps|];
    QuietIsExact(ws[|steps|]);
  }

  lemma {:induction false} StaysUp(ws: seq<World>, steps: seq<Step>, r: nat, n: nat)
    requires IsRun(ws, steps) && r < n <= |steps| && steps[r].ResetAll?
    requires forall k | r < k < |steps| :: !steps[k].DropIndex?
    ensures !ws[n].dropped
  {
    if n > r + 1 {
      StaysUp(ws, steps, r, n - 1);
      assert ws[n] == Apply(ws[n - 1], steps[n - 1]);
    } else {
      assert ws[r + 1] == Apply(ws[r], steps[r]);
    }
  }

  // --- the is_indexed column ---------------------------------------------------------------------

  /** Nothing more is to come for the row: clean, in no batch, not dead-lettered, its mark not lost. */
  predicate AtRest(w: World, p: Pid) {
    && p < |w.table| && !w.table[p].dirty && w.table[p].error.None?
    && !InFlight(w.flights, p) && p !in w.lost && !AwaitsReset(w, p)
  }

  /** The column of every row at rest says whether the index has the row. */
  ghost predicate FlagsInv(w: World) {
    forall p: Pid | AtRest(w, p) :: w.table[p].indexed <==> p in w.es
  }

  ghost predicate FlightFlags(w: World) {
    forall k | 0 <= k < |w.flights| && w.flights[k].Answered? ::
      && (forall p | p in w.flights[k].indexed && p < |w.table| :: w.table[p].dirty || Eligible(w.table[p]))
      && (forall p | p in w.flights[k].deindexed && p < |w.table| :: w.table[p].dirty || !Eligible(w.table[p]))
  }

  /** The row's batch has been answered and its column is still to be written, and differs. */
  predicate Unmarked(f: Flight, o: Obj, p: Pid) {
    f.Answered? && ((p in f.indexed && !o.indexed) || (p in f.deindexed && o.indexed))
  }

  predicate Clean(w: World, p: Pid) {
    p < |w.table| && !w.table[p].dirty && w.table[p].error.None? && p !in w.lost && !AwaitsReset(w, p)
  }

  /** The step leaves the row at rest under a wrong is_indexed: the write of the column failed, or a
      crash came before it; or the index is dropped under an ineligible row whose mark was lost, which
      the reset that follows does not touch. */
  predicate Misflags(w: World, s: Step, p: Pid) {
    match s
    case MarkIndexed(k, saved) =>
      k < |w.flights| && !saved && Clean(w, p) && w.flights[k].Answered? && p in w.flights[k].indexed && !w.table[p].indexed
    case MarkDeindexed(k, saved) =>
      k < |w.flights| && !saved && Clean(w, p) && w.flights[k].Answered? && p in w.flights[k].deindexed && w.table[p].indexed
    case Crash => Clean(w, p) && exists k :: 0 <= k < |w.flights| && Unmarked(w.flights[k], w.table[p], p)
    case DropIndex =>
      && p < |w.table| && !w.table[p].dirty && w.table[p].error.None? && p in w.lost && !InFlight(w.flights, p)
      && !Eligible(w.table[p]) && w.table[p].indexed
    case _ => false
  }

  lemma InFlightAfter(flights: seq<Flight>, k: nat, f: Flight, p: Pid)
    requires k < |flights|
    ensures InFlight(flights[k := f], p) <==>
            p in Pids(f) || exists j :: 0 <= j < |flights| && j != k && p in Pids(flights[j])
    ensures p !in Pids(flights[k]) ==>
            (InFlight(flights[k := f], p) <==> p in Pids(f) || InFlight(flights, p))
  {
    var after := flights[k := f];
    assert after[k] == f && forall j | 0 <= j < |flights| && j != k :: after[j] == flights[j];
  }

  lemma InFlightSnoc(flights: seq<Flight>, f: Flight, p: Pid)
    ensures InFlight(flights + [f], p) <==> InFlight(flights, p) || p in Pids(f)
  {
    var all := flights + [f];
    assert all[|flights|] == f && forall j | 0 <= j < |flights| :: all[j] == flights[j];
  }

  lemma HeldOnce(w: World, k: nat, p: Pid)
    requires Flights(w) && k < |w.flights| && p in Pids(w.flights[k])
    ensures !(exists j :: 0 <= j < |w.flights| && j != k && p in Pids(w.flights[j]))
  {
  }

  /** Steps that settle nothing: whatever is at rest after them was so before, under the same column
      and the same entry. */
  ghost predicate RestsAsBefore(w: World, w': World) {
    forall p: Pid | AtRest(w', p) :: AtRest(w, p) && w'.table[p].indexed == w.table[p].indexed && (p in w'.es <==> p in w.es)
  }

  lemma RestKeepsFlags(w: World, w': World)
    requires FlagsInv(w) && RestsAsBefore(w, w')
    ensures FlagsInv(w')
  {
  }

  predicate Dirties(s: Step) {
    s.Insert? || s.Mutate? || s.DirtyAll? || s.DirtyCollection? || s.DirtyPid? || s.RetryDeadLettered? || s.ResetAll?
  }

  /** The table after such a step: a row is as it was or dirty, and a new one has no column set. */
  ghost predicate Dirtied(w: World, w': World) {
    && |w.table| <= |w'.table| && w'.es == w.es && w'.flights == w.flights && w'.lost == w.lost
    && (forall p: Pid | p < |w.table| :: w'.table[p] == w.table[p] || w'.table[p].dirty)
    && (forall p: Pid | |w.table| <= p < |w'.table| :: !w'.table[p].indexed)
    && (w'.dropped ==> w.dropped)
    && (w.dropped && !w'.dropped ==> forall p: Pid | p < |w'.table| && Eligible(w'.table[p]) :: w'.table[p].dirty)
  }

  lemma DirtiesRows(w: World, s: Step)
    requires Enabled(w, s) && Dirties(s)
    ensures Dirtied(w, Apply(w, s))
  {
  }

  lemma DirtiedKeepsFlags(w: World, w': World)
    requires Inv(w) && FlagsInv(w) && FlightFlags(w) && Dirtied(w, w')
    ensures FlagsInv(w') && FlightFlags(w')
  {
    forall p: Pid | AtRest(w', p) ensures w'.table[p].indexed <==> p in w'.es {
      if p < |w.table| { assert AtRest(w, p); }
    }
    forall k | 0 <= k < |w'.flights| && w'.flights[k].Answered?
      ensures forall p | p in w'.flights[k].indexed && p < |w'.table| :: w'.table[p].dirty || Eligible(w'.table[p])
      ensures forall p | p in w'.flights[k].deindexed && p < |w'.table| :: w'.table[p].dirty || !Eligible(w'.table[p])
    {
      FlightRows(w, k);
      assert forall p | p in w.flights[k].indexed + w.flights[k].deindexed :: p in Pids(w.flights[k]);
    }
  }

  lemma FlightRows(w: World, k: nat)
    requires Flights(w) && k < |w.flights|
    ensures forall p | p in Pids(w.flights[k]) :: p < |w.table|
  {
    assert FlightInv(w, w.flights[k]);
  }

  lemma ClaimKeepsFlags(w: World, limit: Option<int>)
    requires Inv(w) && FlagsInv(w) && FlightFlags(w) && NoOverlap(w, Claim(limit))
    ensures FlagsInv(Apply(w, Claim(limit))) && FlightFlags(Apply(w, Claim(limit)))
  {
    var w' := Apply(w, Claim(limit));
    var n, ids := |w.flights|, Claimed(w.table, limit);
    ClaimSends(w, limit);
    assert w'.flights == w.flights + [w'.flights[n]];
    forall p: Pid | AtRest(w', p) ensures AtRest(w, p) && w'.table[p].indexed == w.table[p].indexed && (p in w'.es <==> p in w.es) {
      InFlightSnoc(w.flights, w'.flights[n], p);
      assert p !in ids;
    }
    RestKeepsFlags(w, w');
    forall k | 0 <= k < |w'.flights| && w'.flights[k].Answered?
      ensures forall p | p in w'.flights[k].indexed && p < |w'.table| :: w'.table[p].dirty || Eligible(w'.table[p])
      ensures forall p | p in w'.flights[k].deindexed && p < |w'.table| :: w'.table[p].dirty || !Eligible(w'.table[p])
    {
      assert w'.flights[k] == w.flights[k];
      forall p | p in w.flights[k].indexed + w.flights[k].deindexed ensures p !in ids { assert p in Pids(w.flights[k]); }
    }
  }

  /** A batch's own step that takes rows out of it only to leave them dirty, lost or dead-lettered. */
  lemma BatchKeepsFlags(w: World, k: nat, f: Flight, w': World)
    requires Flights(w) && FlagsInv(w) && FlightFlags(w) && k < |w.flights|
    requires w'.flights == w.flights[k := f] && Pids(f) <= Pids(w.flights[k]) && |w'.table| == |w.table|
    requires w.lost <= w'.lost && w'.dropped == w.dropped
    requires forall p: Pid | p !in Pids(w.flights[k]) && p < |w.table| :: w'.table[p] == w.table[p] && (p in w'.es <==> p in w.es)
    requires forall p | p in Pids(w.flights[k]) - Pids(f) && p < |w.table| :: !AtRest(w', p)
    ensures FlagsInv(w')
  {
    forall p: Pid | AtRest(w', p) ensures AtRest(w, p) && w'.table[p].indexed == w.table[p].indexed && (p in w'.es <==> p in w.es) {
      InFlightAfter(w.flights, k, f, p);
      assert p !in Pids(w.flights[k]);
    }
    RestKeepsFlags(w, w');
  }

  lemma OtherFlightFlags(w: World, k: nat, f: Flight, w': World)
    requires Flights(w) && FlightFlags(w) && k < |w.flights| && w'.flights == w.flights[k := f] && |w'.table| == |w.table|
    requires forall p: Pid | p !in Pids(w.flights[k]) && p < |w.table| :: w'.table[p] == w.table[p]
    requires f.Answered? ==>
      && (forall p | p in f.indexed && p < |w'.table| :: w'.table[p].dirty || Eligible(w'.table[p]))
      && (forall p | p in f.deindexed && p < |w'.table| :: w'.table[p].dirty || !Eligible(w'.table[p]))
    ensures FlightFlags(w')
  {
    forall j | 0 <= j < |w'.flights| && w'.flights[j].Answered?
      ensures forall p | p in w'.flights[j].indexed && p < |w'.table| :: w'.table[p].dirty || Eligible(w'.table[p])
      ensures forall p | p in w'.flights[j].deindexed && p < |w'.table| :: w'.table[p].dirty || !Eligible(w'.table[p])
    {
      if j != k {
        assert w'.flights[j] == w.flights[j];
        forall p | p in w.flights[j].indexed + w.flights[j].deindexed ensures p !in Pids(w.flights[k]) { assert p in Pids(w.flights[j]); }
      }
    }
  }

  lemma OutKeepsFlags(w: World, s: Step, k: nat)
    requires Inv(w) && FlagsInv(w) && FlightFlags(w) && Enabled(w, s)
    requires (s.BuildThrew? || s.Throw? || s.Requeue? || s.Record?) && s.k == k
    ensures FlagsInv(Apply(w, s)) && FlightFlags(Apply(w, s))
  {
    var w' := Apply(w, s);
    FlightRows(w, k);
    assert FlightInv(w, w.flights[k]);
    if s.Throw? {
      forall p: Pid | p !in Pids(w.flights[k]) ensures p in w'.es <==> p in w.es {
        WrittenLookup(w.es, w.flights[k].snaps, s.landed, p);
      }
    }
    if s.Record? { OutsideBatch(w, k); }
    BatchKeepsFlags(w, k, w'.flights[k], w');
    OtherFlightFlags(w, k, w'.flights[k], w');
  }

  lemma OutsideBatch(w: World, k: nat)
    requires Flights(w) && k < |w.flights| && w.flights[k].Answered?
    ensures w.flights[k].failed.Keys !! w.flights[k].indexed + w.flights[k].deindexed
  {
    assert FlightInv(w, w.flights[k]);
  }

  lemma ReturnKeepsFlags(w: World, k: nat, rejected: map<Pid, string>)
    requires Inv(w) && FlagsInv(w) && FlightFlags(w) && Enabled(w, Return(k, rejected))
    ensures FlagsInv(Apply(w, Return(k, rejected))) && FlightFlags(Apply(w, Return(k, rejected)))
  {
    var w' := Apply(w, Return(k, rejected));
    var snaps := w.flights[k].snaps;
    assert FlightInv(w, w.flights[k]);
    forall p: Pid | p !in snaps ensures p in w'.es <==> p in w.es {
      WrittenLookup(w.es, snaps, snaps.Keys - rejected.Keys, p);
    }
    BatchKeepsFlags(w, k, w'.flights[k], w');
    OtherFlightFlags(w, k, w'.flights[k], w');
  }

  /** The column's write: right when it takes, and missed exactly on the rows it would have changed. */
  lemma MarkFlags(w: World, k: nat, s: Step)
    requires Inv(w) && FlagsInv(w) && FlightFlags(w) && Enabled(w, s)
    requires (s.MarkIndexed? || s.MarkDeindexed?) && s.k == k
    ensures FlightFlags(Apply(w, s))
    ensures FlagsInv(Apply(w, s)) <==> !(exists p: Pid :: Misflags(w, s, p))
  {
    var w' := Apply(w, s);
    var f, f' := w.flights[k], w'.flights[k];
    var pids := if s.MarkIndexed? then f.indexed else f.deindexed;
    FlightRows(w, k);
    OtherFlightFlags(w, k, f', w');
    assert Confirmed(w, f) && FlightInv(w, f);
    forall p: Pid
      ensures AtRest(w', p) && p !in pids ==> (w'.table[p].indexed <==> p in w'.es)
      ensures p in pids ==> (AtRest(w', p) && !(w'.table[p].indexed <==> p in w'.es) <==> Misflags(w, s, p))
    {
      InFlightAfter(w.flights, k, f', p);
      if p in pids {
        MarkedRow(w, k, s, p);
      } else if AtRest(w', p) {
        assert w'.table[p] == w.table[p] && AtRest(w, p);
      }
    }
    if FlagsInv(w') {
      forall p: Pid ensures !Misflags(w, s, p) { assert Misflags(w, s, p) ==> p in pids; }
    }
  }

  lemma MarkedRow(w: World, k: nat, s: Step, p: Pid)
    requires Inv(w) && FlightFlags(w) && Enabled(w, s) && (s.MarkIndexed? || s.MarkDeindexed?) && s.k == k
    requires p in if s.MarkIndexed? then w.flights[k].indexed else w.flights[k].deindexed
    ensures AtRest(Apply(w, s), p) && !(Apply(w, s).table[p].indexed <==> p in Apply(w, s).es) <==> Misflags(w, s, p)
  {
    var w' := Apply(w, s);
    var f := w.flights[k];
    FlightRows(w, k);
    assert Confirmed(w, f) && FlightInv(w, f) && p in Pids(f);
    HeldOnce(w, k, p);
    InFlightAfter(w.flights, k, w'.flights[k], p);
  }

  /** A row held by an answered batch whose document is confirmed carries it, or is on its way out. */
  lemma HeldRow(w: World, k: nat, p: Pid)
    requires Inv(w) && FlightFlags(w) && k < |w.flights| && w.flights[k].Answered? && Clean(w, p)
    requires p in w.flights[k].indexed + w.flights[k].deindexed
    ensures p in w.es <==> p in w.flights[k].indexed
    ensures p in w.flights[k].indexed ==> p !in w.flights[k].deindexed
  {
    assert Confirmed(w, w.flights[k]) && FlightInv(w, w.flights[k]);
  }

  lemma CrashRow(w: World, p: Pid)
    requires Inv(w) && FlagsInv(w) && FlightFlags(w) && p < |w.table|
    ensures AtRest(Apply(w, Crash), p) && !(w.table[p].indexed <==> p in w.es) <==> Misflags(w, Crash, p)
  {
    var w' := Apply(w, Crash);
    if Clean(w, p) && InFlight(w.flights, p) {
      var k :| 0 <= k < |w.flights| && p in Pids(w.flights[k]);
      HeldOnce(w, k, p);
      if p in Pending(w.flights[k]) {
        assert Unconfirmed(w.flights, p) && p in w'.lost;
        OutsideBatchOf(w, k, p);
      } else {
        HeldRow(w, k, p);
        assert !Unconfirmed(w.flights, p);
      }
    } else if Clean(w, p) {
      assert AtRest(w, p) && !Unconfirmed(w.flights, p);
    }
  }

  /** A row awaiting confirmation is not one awaiting its column. */
  lemma OutsideBatchOf(w: World, k: nat, p: Pid)
    requires Flights(w) && k < |w.flights| && p < |w.table| && p in Pending(w.flights[k])
    ensures forall j | 0 <= j < |w.flights| :: !Unmarked(w.flights[j], w.table[p], p)
  {
    FlightRows(w, k);
    assert FlightInv(w, w.flights[k]) && p in Pids(w.flights[k]);
    forall j | 0 <= j < |w.flights| ensures !Unmarked(w.flights[j], w.table[p], p) {
      assert j != k ==> Pids(w.flights[j]) !! Pids(w.flights[k]);
    }
  }

  lemma CrashFlags(w: World)
    requires Inv(w) && FlagsInv(w) && FlightFlags(w)
    ensures FlagsInv(Apply(w, Crash)) <==> !(exists p: Pid :: Misflags(w, Crash, p))
  {
    var w' := Apply(w, Crash);
    forall p: Pid | p < |w.table|
      ensures AtRest(w', p) && !(w.table[p].indexed <==> p in w.es) <==> Misflags(w, Crash, p)
    {
      CrashRow(w, p);
    }
    if FlagsInv(w') {
      forall p: Pid ensures !Misflags(w, Crash, p) { assert Misflags(w, Crash, p) ==> p < |w.table|; }
    }
  }

  lemma DropRow(w: World, p: Pid)
    requires Inv(w) && FlagsInv(w) && p < |w.table|
    ensures AtRest(Apply(w, DropIndex), p) && w.table[p].indexed <==> Misflags(w, DropIndex, p)
  {
    assert Accounted(w, p);
    assert Unconfirmed(w.flights, p) ==> InFlight(w.flights, p) by {
      if k :| 0 <= k < |w.flights| && p in Pending(w.flights[k]) { assert p in Pids(w.flights[k]); }
    }
  }

  lemma DropFlags(w: World)
    requires Inv(w) && FlagsInv(w) && FlightFlags(w)
    ensures FlightFlags(Apply(w, DropIndex))
    ensures FlagsInv(Apply(w, DropIndex)) <==> !(exists p: Pid :: Misflags(w, DropIndex, p))
  {
    var w' := Apply(w, DropIndex);
    forall p: Pid | p < |w.table| ensures AtRest(w', p) && w.table[p].indexed <==> Misflags(w, DropIndex, p) { DropRow(w, p); }
    if FlagsInv(w') {
      forall p: Pid ensures !Misflags(w, DropIndex, p) { assert Misflags(w, DropIndex, p) ==> p < |w.table|; }
    }
  }

  /** IS_INDEXED, one step: the column of every row at rest goes on telling whether the index has the
      row, except after a step that leaves a row at rest under a wrong one. */
  lemma StepKeepsFlagsIff(w: World, s: Step)
    requires Inv(w) && FlagsInv(w) && FlightFlags(w) && Enabled(w, s) && NoOverlap(w, s)
    ensures FlightFlags(Apply(w, s))
    ensures FlagsInv(Apply(w, s)) <==> !(exists p: Pid :: Misflags(w, s, p))
  {
    match s
    case Claim(limit) => ClaimKeepsFlags(w, limit);
    case BuildThrew(k) => OutKeepsFlags(w, s, k);
    case Throw(k, _) => OutKeepsFlags(w, s, k);
    case Requeue(k, _) => OutKeepsFlags(w, s, k);
    case Record(k, _, _) => OutKeepsFlags(w, s, k);
    case Return(k, rejected) => ReturnKeepsFlags(w, k, rejected);
    case MarkIndexed(k, _) => MarkFlags(w, k, s);
    case MarkDeindexed(k, _) => MarkFlags(w, k, s);
    case DropIndex => DropFlags(w);
    case Crash => CrashFlags(w);
    case _ =>
      DirtiesRows(w, s);
      DirtiedKeepsFlags(w, Apply(w, s));
  }

  /** IS_INDEXED over runs. */
  lemma {:induction false} FlagsHold(ws: seq<World>, steps: seq<Step>, n: nat)
    requires IsRun(ws, steps) && n < |ws|
    requires Inv(ws[0]) && ws[0].lost == {} && FlagsInv(ws[0]) && FlightFlags(ws[0])
    requires forall k | 0 <= k < |steps| :: NoOverlap(ws[k], steps[k])
    requires forall k, p: Pid | 0 <= k < n :: !Misflags(ws[k], steps[k], p)
    ensures FlagsInv(ws[n]) && FlightFlags(ws[n])
  {
    if n > 0 {
      FlagsHold(ws, steps, n - 1);
      IndexAgrees(ws, steps, n - 1);
      assert ws[n - 1 + 1] == Apply(ws[n - 1], steps[n - 1]);
      StepKeepsFlagsIff(ws[n - 1], steps[n - 1]);
    }
  }

  /** In a quiet world the column says of every row, dead letters apart, both whether the index has
      it and whether it should. */
  lemma QuietFlags(w: World)
    requires Inv(w) && FlagsInv(w) && Quiet(w) && w.lost == {} && forall k | 0 <= k < |w.flights| :: Pids(w.flights[k]) == {}
    ensures forall p: Pid | p < |w.table| && w.table[p].error.None? ::
      (w.table[p].indexed <==> p in w.es) && (w.table[p].indexed <==> Eligible(w.table[p]))
  {
    QuietIsExact(w);
    forall p: Pid | p < |w.table| && w.table[p].error.None?
      ensures (w.table[p].indexed <==> p in w.es) && (w.table[p].indexed <==> Eligible(w.table[p]))
    {
      assert AtRest(w, p) && InSync(w, p);
    }
  }

  /** The index takes a row and the write of its column fails: the row stays clean and in the index
      under is_indexed = 0. */
  lemma UnsavedMarkMisflags(w: World, k: nat, p: Pid)
    requires Inv(w) && FlightFlags(w) && k < |w.flights| && w.flights[k].Answered? && p in w.flights[k].indexed
    requires Clean(w, p) && !w.table[p].indexed
    ensures var w' := Apply(w, MarkIndexed(k, false));
      Misflags(w, MarkIndexed(k, false), p) && AtRest(w', p) && p in w'.es && !w'.table[p].indexed
  {
    HeldRow(w, k, p);
    MarkedRow(w, k, MarkIndexed(k, false), p);
  }

  // --- what the two side conditions are there for ---------------------------------------------------

  predicate SilentlyStale(w: World, p: Pid) {
    && p < |w.table| && !w.table[p].dirty && w.table[p].error.None? && !w.dropped
    && !InFlight(w.flights, p) && p !in w.lost && !InSync(w, p)
  }

  lemma ClaimOne(w: World)
    requires |w.table| == 1 && w.table[0].dirty
    ensures var o := w.table[0].(dirty := false);
      && Claimed(w.table, None) == {0}
      && Apply(w, Claim(None)) == World([o], w.es, w.flights + [Sent(map[0 := o])], w.lost - {0}, w.dropped)
  {
    assert DirtyIds(w.table, 0, 5) == [0] + DirtyIds(w.table, 1, 4);
    assert SnapshotOf(w.table, {0}) == map[0 := w.table[0].(dirty := false)];
  }

  lemma ReturnOne(w: World, k: nat, o: Obj)
    requires k < |w.flights| && w.flights[k] == Sent(map[0 := o]) && Eligible(o)
    ensures Apply(w, Return(k, map[])) ==
            w.(es := w.es[0 := o.doc], flights := w.flights[k := Answered({0}, {}, map[])])
  {
    var snaps := map[0 := o];
    var none: map<Pid, string> := map[];
    assert snaps.Keys - none.Keys == {0};
    assert Written(w.es, snaps, {0}) == w.es[0 := o.doc];
    assert AnswerOf(snaps, map[]) == Answered({0}, {}, map[]);
  }

  lemma MarkOne(w: World, k: nat)
    requires |w.table| == 1 && k < |w.flights| && w.flights[k] == Answered({0}, {}, map[])
    ensures Apply(w, MarkIndexed(k, true)) ==
            w.(table := [Marked(w.table[0], true)], flights := w.flights[k := Answered({}, {}, map[])])
  {
  }

  /** Batches 0 and 1 answer newest first, every item accepted, and row 0 ends silently stale. */
  predicate BackwardsGoesStale(w: World) {
    && Enabled(w, Return(1, map[]))
    && var w1 := Apply(w, Return(1, map[]));
    && Enabled(w1, Return(0, map[]))
    && var w2 := Apply(w1, Return(0, map[]));
    && Enabled(w2, MarkIndexed(0, true))
    && var w3 := Apply(w2, MarkIndexed(0, true));
    && Enabled(w3, MarkIndexed(1, true))
    && SilentlyStale(Apply(w3, MarkIndexed(1, true)), 0)
  }

  lemma AnsweredBackwards(row: Obj, old1: Obj, new1: Obj)
    requires Eligible(row) && Eligible(old1) && Eligible(new1) && !row.dirty && row.doc == new1.doc != old1.doc
    ensures BackwardsGoesStale(World([row], map[], [Sent(map[0 := old1]), Sent(map[0 := new1])], {}, false))
  {
    var w3 := World([row], map[], [Sent(map[0 := old1]), Sent(map[0 := new1])], {}, false);
    ReturnOne(w3, 1, new1);
    var w4 := Apply(w3, Return(1, map[]));
    ReturnOne(w4, 0, old1);
    var w5 := Apply(w4, Return(0, map[]));
    MarkOne(w5, 0);
    MarkOne(Apply(w5, MarkIndexed(0, true)), 1);
  }

  /** The row is claimed, edited while its batch is out, and claimed again by a second tick. */
  function ClaimedTwice(o: Obj, doc: Doc): World {
    Apply(Apply(Apply(World([o], map[], [], {}, false), Claim(None)),
                Mutate(0, true, true, o.collection, doc)), Claim(None))
  }

  lemma ClaimedTwiceIs(o: Obj, doc: Doc)
    requires o.dirty
    ensures ClaimedTwice(o, doc) ==
      World([o.(published := true, active := true, doc := doc, dirty := false)], map[],
            [Sent(map[0 := o.(dirty := false)]),
             Sent(map[0 := o.(published := true, active := true, doc := doc, dirty := false)])], {}, false)
  {
    var w0 := World([o], map[], [], {}, false);
    ClaimOne(w0);
    var w1 := Apply(w0, Claim(None));
    assert w1.flights == [Sent(map[0 := o.(dirty := false)])];
    ClaimOne(Apply(w1, Mutate(0, true, true, o.collection, doc)));
  }

  /** If the answers then come back in the other order, the index keeps the old document under a
      clean row that no batch holds, and nothing will repair it. */
  lemma OverlapBreaks(o: Obj, doc: Doc)
    requires Eligible(o) && o.dirty && o.doc != doc
    ensures BackwardsGoesStale(ClaimedTwice(o, doc))
  {
    ClaimedTwiceIs(o, doc);
    AnsweredBackwards(o.(published := true, active := true, doc := doc, dirty := false), o.(dirty := false),
                      o.(published := true, active := true, doc := doc, dirty := false));
  }

  /** A crash between the claim and the answer leaves a row clean, unheld and out of sync: the
      claim has already cleared is_updated, and no later poll will pick the row up. */
  lemma CrashLosesMark(o: Obj)
    requires Eligible(o) && o.dirty && o.error.None?
    ensures var w := Apply(Apply(World([o], map[], [], {}, false), Claim(None)), Crash);
      && !w.table[0].dirty && w.table[0].error.None? && w.flights == [] && !InSync(w, 0)
      && w.lost == {0}
  {
    var w0 := World([o], map[], [], {}, false);
    ClaimOne(w0);
    var w1 := Apply(w0, Claim(None));
    assert 0 in Pending(w1.flights[0]);
    assert Apply(w1, Crash).lost == {0};
  }

  /** One row whose op cannot be shaped takes its whole batch with it: nothing is written, and every
      claimed row is left clean, unheld and forgotten, with no crash and no failed write. */
  lemma UnshapedRowLosesBatch(w: World, limit: Option<int>)
    requires Inv(w) && NoOverlap(w, Claim(limit))
    ensures var w1 := Apply(w, Claim(limit));
      && Enabled(w1, BuildThrew(|w.flights|))
      && var w2 := Apply(w1, BuildThrew(|w.flights|));
      && w2.es == w.es
      && forall p | p in Claimed(w.table, limit) ::
           p < |w2.table| && !w2.table[p].dirty && !Unconfirmed(w2.flights, p) && p in w2.lost
  {
    var n, ids := |w.flights|, Claimed(w.table, limit);
    DirtyIdsAre(w.table, 0, ClaimCap(limit));
    var w1 := Apply(w, Claim(limit));
    var w2 := Apply(w1, BuildThrew(n));
    forall p | p in ids ensures p < |w2.table| && !w2.table[p].dirty && !Unconfirmed(w2.flights, p) && p in w2.lost {
      assert p in w1.flights[n].snaps;
      forall k | 0 <= k < |w2.flights| ensures p !in Pending(w2.flights[k]) {
        if k < n { assert w2.flights[k] == w.flights[k] && p !in Pids(w.flights[k]); }
      }
    }
  }

  // --- draining -----------------------------------------------------------------------------------

  /** What one uninterrupted tick hears back. */
  datatype Answer = Threw(landed: set<Pid>) | Items(rejected: map<Pid, string>)

  predicate Idle(w: World) {
    forall k | 0 <= k < |w.flights| :: Pids(w.flights[k]) == {}
  }

  predicate Answers(ids: set<Pid>, a: Answer) {
    match a
    case Threw(landed) => landed <= ids
    case Items(rejected) => rejected.Keys <= ids
  }

  function Outage(w: World, k: nat, landed: set<Pid>): World
    requires Enabled(w, Throw(k, landed))
  {
    Apply(Apply(w, Throw(k, landed)), Requeue(k, true))
  }

  function Settled(w: World, k: nat, rejected: map<Pid, string>, max: Option<int>): World
    requires Enabled(w, Return(k, rejected))
  {
    Apply(Apply(Apply(Apply(w, Return(k, rejected)), MarkIndexed(k, true)), MarkDeindexed(k, true)), Record(k, max, true))
  }

  /** One tick of the worker, run to its end without a failed database write. */
  ghost function Tick(w: World, limit: Option<int>, max: Option<int>, a: Answer): World
    requires Answers(Claimed(w.table, limit), a)
  {
    if Claimed(w.table, limit) == {} then w
    else
      ClaimSends(w, limit);
      var w1 := Apply(w, Claim(limit));
      if a.Threw? then Outage(w1, |w.flights|, a.landed) else Settled(w1, |w.flights|, a.rejected, max)
  }

  lemma ClaimSends(w: World, limit: Option<int>)
    ensures var w1 := Apply(w, Claim(limit)); var ids := Claimed(w.table, limit);
      && |w1.table| == |w.table| && |w1.flights| == |w.flights| + 1
      && w1.es == w.es && w1.flights[|w.flights|] == Sent(SnapshotOf(w.table, ids))
      && w1.flights[|w.flights|].snaps.Keys == ids
      && (forall p | p in ids :: p < |w.table| && w.table[p].dirty
            && w1.flights[|w.flights|].snaps[p] == w.table[p].(dirty := false))
      && (forall p: Pid | p < |w.table| :: w1.table[p] == if p in ids then w.table[p].(dirty := false) else w.table[p])
      && (Idle(w) ==> forall j | 0 <= j < |w.flights| :: Pids(w1.flights[j]) == {})
  {
    DirtyIdsAre(w.table, 0, ClaimCap(limit));
  }

  lemma OutageRows(w: World, k: nat, landed: set<Pid>)
    requires Enabled(w, Throw(k, landed))
    ensures var w' := Outage(w, k, landed); var snaps := w.flights[k].snaps;
      && |w'.table| == |w.table| && w'.flights == w.flights[k := Thrown({})]
      && w'.lost == w.lost && w'.dropped == w.dropped && w'.es == Written(w.es, snaps, landed)
      && (forall p: Pid | p < |w.table| :: w'.table[p] == if p in snaps then w.table[p].(dirty := true) else w.table[p])
  {
  }

  lemma MarkRows(w: World, k: nat, f: Flight)
    requires k < |w.flights| && w.flights[k] == f && f.Answered? && f.indexed !! f.deindexed
    ensures var w' := Apply(Apply(w, MarkIndexed(k, true)), MarkDeindexed(k, true));
      && w'.flights == w.flights[k := Answered({}, {}, f.failed)]
      && |w'.table| == |w.table| && w'.es == w.es && w'.lost == w.lost && w'.dropped == w.dropped
      && (forall p: Pid | p < |w.table| :: w'.table[p] ==
           if p in f.indexed then Marked(w.table[p], true)
           else if p in f.deindexed then Marked(w.table[p], false) else w.table[p])
  {
    var w1 := Apply(w, MarkIndexed(k, true));
    assert forall p: Pid | p < |w.table| :: w1.table[p] == if p in f.indexed then Marked(w.table[p], true) else w.table[p];
  }

  lemma RecordRows(w: World, k: nat, f: Flight, max: Option<int>)
    requires k < |w.flights| && w.flights[k] == f && f.Answered?
    ensures var w' := Apply(w, Record(k, max, true));
      && w'.flights == w.flights[k := f.(failed := map[])]
      && |w'.table| == |w.table| && w'.es == w.es && w'.lost == w.lost && w'.dropped == w.dropped
      && (forall p: Pid | p < |w.table| :: w'.table[p] ==
           if p in f.failed then Failed(w.table[p], AttemptCap(max), f.failed[p]) else w.table[p])
  {
  }

  lemma SettledRows(w: World, k: nat, rejected: map<Pid, string>, max: Option<int>)
    requires Enabled(w, Return(k, rejected))
    ensures var w' := Settled(w, k, rejected, max); var snaps := w.flights[k].snaps;
      && |w'.table| == |w.table| && w'.flights == w.flights[k := Answered({}, {}, map[])]
      && w'.lost == w.lost && w'.dropped == w.dropped && w'.es == Written(w.es, snaps, snaps.Keys - rejected.Keys)
      && (forall p: Pid | p < |w.table| :: w'.table[p] ==
           if p in rejected then Failed(w.table[p], AttemptCap(max), rejected[p])
           else if p in snaps then Marked(w.table[p], Eligible(snaps[p])) else w.table[p])
  {
    var w1 := Apply(w, Return(k, rejected));
    var f := AnswerOf(w.flights[k].snaps, rejected);
    MarkRows(w1, k, f);
    var w3 := Apply(Apply(w1, MarkIndexed(k, true)), MarkDeindexed(k, true));
    RecordRows(w3, k, Answered({}, {}, rejected), max);
  }

  function Ticked(o: Obj, p: Pid, ids: set<Pid>, cap: nat, a: Answer): Obj {
    if p !in ids || a.Threw? then o
    else if p in a.rejected then Failed(o.(dirty := false), cap, a.rejected[p])
    else Marked(o.(dirty := false), Eligible(o))
  }

  /** The text kept of an error: at most its first thousand characters, and never nothing. */
  predicate Records(kept: string, err: string) {
    kept == if err == "" then "index failed" else err[..Min(1000, |err|)]
  }

  /** The row after an accepted item, field by field. */
  predicate Recorded(before: Obj, after: Obj, indexed: bool) {
    after == Obj(before.published, before.active, before.collection, before.doc, false, indexed, 0, None)
  }

  /** The row after a rejected item: one attempt spent, and then queued again, or parked at the cap. */
  predicate Penalised(before: Obj, after: Obj, cap: nat, err: string) {
    && after.published == before.published && after.active == before.active && after.collection == before.collection
    && after.doc == before.doc && after.indexed == before.indexed && after.attempts == before.attempts + 1
    && (after.dirty <==> after.attempts < cap)
    && (if after.attempts < cap then after.error == before.error else after.error.Some? && Records(after.error.value, err))
  }

  lemma FailedIs(o: Obj, cap: nat, err: string)
    ensures Penalised(o, Failed(o, cap, err), cap, err)
  {
  }

  /** A limit or a maximum that is missing, not a number or zero counts as five; a negative one as one;
      and a claim takes at most a hundred rows. */
  lemma CapsAre(n: int)
    ensures ClaimCap(None) == ClaimCap(Some(0)) == AttemptCap(None) == AttemptCap(Some(0)) == 5
    ensures n < 0 ==> ClaimCap(Some(n)) == AttemptCap(Some(n)) == 1
    ensures n > 0 ==> AttemptCap(Some(n)) == n
    ensures 0 < n <= 100 ==> ClaimCap(Some(n)) == n
    ensures n > 100 ==> ClaimCap(Some(n)) == 100
  {
  }

  /** Queued again from nothing: no attempt spent, no error. */
  predicate Queued(before: Obj, after: Obj, indexed: bool) {
    after == Obj(before.published, before.active, before.collection, before.doc, true, indexed, 0, None)
  }

  /** What a step makes of a row, field by field. */
  ghost predicate RowAfter(w: World, s: Step, p: Pid, r: Obj, r': Obj)
    requires Enabled(w, s)
  {
    match s
    case Mutate(q, pub, act, coll, doc) =>
      r' == if p == q then Obj(pub, act, coll, doc, true, r.indexed, r.attempts, r.error) else r
    case Claim(limit) => r' == if p in Claimed(w.table, limit) then r.(dirty := false) else r
    case Requeue(k, saved) => r' == if saved && p in w.flights[k].pids then r.(dirty := true) else r
    case MarkIndexed(k, saved) =>
      r' == if saved && p in w.flights[k].indexed then r.(indexed := true, attempts := 0, error := None) else r
    case MarkDeindexed(k, saved) =>
      r' == if saved && p in w.flights[k].deindexed then r.(indexed := false, attempts := 0, error := None) else r
    case Record(k, max, saved) =>
      if saved && p in w.flights[k].failed
      then Penalised(r, r', AttemptCap(max), w.flights[k].failed[p]) && (!r'.dirty ==> r'.attempts >= AttemptCap(max)) else r' == r
    case DirtyAll => if r.published && r.active then Queued(r, r', r.indexed) else r' == r
    case DirtyCollection(c) => if r.published && r.active && r.collection == c then Queued(r, r', r.indexed) else r' == r
    case DirtyPid(q) => if p == q then Queued(r, r', r.indexed) else r' == r
    case RetryDeadLettered => if r.error.Some? then Queued(r, r', r.indexed) else r' == r
    case ResetAll => if r.published && r.active then Queued(r, r', false) else r' == r
    case _ => r' == r
  }

  lemma StepOnRow(w: World, s: Step, p: Pid)
    requires Enabled(w, s) && p < |w.table|
    ensures p < |Apply(w, s).table| && RowAfter(w, s, p, w.table[p], Apply(w, s).table[p])
    ensures |Apply(w, s).table| == |w.table| + (if s.Insert? then 1 else 0) && (s.Insert? ==> Apply(w, s).table[|w.table|] == s.o)
  {
    if s.Record? && p in w.flights[s.k].failed { FailedIs(w.table[p], AttemptCap(s.max), w.flights[s.k].failed[p]); }
  }

  /** What a step makes of the index and of the marks it has lost. */
  lemma StepOnIndex(w: World, s: Step, p: Pid)
    requires Enabled(w, s)
    ensures var w' := Apply(w, s);
      && Lookup(w'.es, p) ==
           (if s.DropIndex? then None
            else if (s.Throw? && p in s.landed) || (s.Return? && p in w.flights[s.k].snaps && p !in s.rejected)
            then (if w.flights[s.k].snaps[p].published && w.flights[s.k].snaps[p].active
                  then Some(w.flights[s.k].snaps[p].doc) else None)
            else Lookup(w.es, p))
      && (p in w'.lost <==>
            || (p in w.lost && !s.DropIndex? && !(s.Claim? && p in Claimed(w.table, s.limit)))
            || (s.BuildThrew? && p in w.flights[s.k].snaps)
            || (s.Requeue? && !s.saved && p in w.flights[s.k].pids)
            || (s.Record? && !s.saved && p in w.flights[s.k].failed)
            || (s.Crash? && p < |w.table| && Unconfirmed(w.flights, p)))
      && (w'.dropped <==> s.DropIndex? || (w.dropped && !s.ResetAll?))
  {
    if s.Throw? { WrittenLookup(w.es, w.flights[s.k].snaps, s.landed, p); }
    if s.Return? { WrittenLookup(w.es, w.flights[s.k].snaps, w.flights[s.k].snaps.Keys - s.rejected.Keys, p); }
  }

  /** ... and of the batches: a claim adds one, a crash ends them all, and every other step settles a
      part of its own. */
  lemma StepOnFlights(w: World, s: Step)
    requires Enabled(w, s)
    ensures var fs, fs' := w.flights, Apply(w, s).flights;
      match s
      case Claim(limit) => fs' == fs + [Sent(SnapshotOf(w.table, Claimed(w.table, limit)))]
      case BuildThrew(k) => fs' == fs[k := Thrown({})]
      case Throw(k, _) => fs' == fs[k := Thrown(fs[k].snaps.Keys)]
      case Return(k, rejected) =>
        && fs' == fs[k := fs'[k]] && fs'[k].Answered? && fs'[k].failed == rejected
        && (forall p :: p in fs'[k].indexed <==>
              p in fs[k].snaps && p !in rejected && fs[k].snaps[p].published && fs[k].snaps[p].active)
        && (forall p :: p in fs'[k].deindexed <==>
              p in fs[k].snaps && p !in rejected && !(fs[k].snaps[p].published && fs[k].snaps[p].active))
      case Requeue(k, _) => fs' == fs[k := Thrown({})]
      case MarkIndexed(k, _) => fs' == fs[k := Answered({}, fs[k].deindexed, fs[k].failed)]
      case MarkDeindexed(k, _) => fs' == fs[k := Answered(fs[k].indexed, {}, fs[k].failed)]
      case Record(k, _, _) => fs' == fs[k := Answered(fs[k].indexed, fs[k].deindexed, map[])]
      case Crash => fs' == []
      case _ => fs' == fs
  {
  }

  /** THE TICK, field by field. An accepted row ends clean with its counters cleared and is_indexed set
      exactly if it is eligible; a rejected one has spent an attempt; no other row changes. */
  lemma TickFields(w: World, limit: Option<int>, max: Option<int>, rejected: map<Pid, string>)
    requires Answers(Claimed(w.table, limit), Items(rejected))
    ensures var t := Tick(w, limit, max, Items(rejected)).table;
      && |t| == |w.table|
      && (forall p: Pid | p < |t| && p !in Claimed(w.table, limit) :: t[p] == w.table[p])
      && (forall p | p in Claimed(w.table, limit) && p !in rejected && p < |t| ::
            Recorded(w.table[p], t[p], w.table[p].published && w.table[p].active))
      && (forall p | p in rejected && p < |t| :: Penalised(w.table[p], t[p], AttemptCap(max), rejected[p]))
  {
    TickRows(w, limit, max, Items(rejected));
    forall p | p in rejected && p < |w.table|
      ensures Penalised(w.table[p], Tick(w, limit, max, Items(rejected)).table[p], AttemptCap(max), rejected[p])
    {
      FailedIs(w.table[p].(dirty := false), AttemptCap(max), rejected[p]);
    }
  }

  /** The tick row by row; an outage (the bulk call threw) leaves the table exactly as it was, so
      it costs no row an attempt and dead-letters nothing. */
  lemma TickRows(w: World, limit: Option<int>, max: Option<int>, a: Answer)
    requires Answers(Claimed(w.table, limit), a)
    ensures var w' := Tick(w, limit, max, a);
      && |w'.table| == |w.table|
      && (forall p: Pid | p < |w.table| :: w'.table[p] == Ticked(w.table[p], p, Claimed(w.table, limit), AttemptCap(max), a))
      && (a.Threw? ==> w'.table == w.table)
  {
    ClaimSends(w, limit);
    var w1 := Apply(w, Claim(limit));
    match a
    case Threw(landed) => OutageRows(w1, |w.flights|, landed);
    case Items(rejected) => SettledRows(w1, |w.flights|, rejected, max);
  }

  lemma OutageKeepsInv(w: World, k: nat, landed: set<Pid>)
    requires Inv(w) && Enabled(w, Throw(k, landed))
    ensures Inv(Outage(w, k, landed))
  {
    StepKeepsInv(w, Throw(k, landed));
    StepKeepsInv(Apply(w, Throw(k, landed)), Requeue(k, true));
  }

  lemma SettledKeepsInv(w: World, k: nat, rejected: map<Pid, string>, max: Option<int>)
    requires Inv(w) && Enabled(w, Return(k, rejected))
    ensures Inv(Settled(w, k, rejected, max))
  {
    var w1 := Apply(w, Return(k, rejected));
    StepKeepsInv(w, Return(k, rejected));
    var w2 := Apply(w1, MarkIndexed(k, true));
    StepKeepsInv(w1, MarkIndexed(k, true));
    StepKeepsInv(w2, MarkDeindexed(k, true));
    StepKeepsInv(Apply(w2, MarkDeindexed(k, true)), Record(k, max, true));
  }

  lemma IdleClaim(w: World, limit: Option<int>)
    requires Inv(w) && Idle(w)
    ensures Inv(Apply(w, Claim(limit)))
  {
    ClaimKeeps(w, limit);
  }

  /** Batch k is the only one with rows. */
  predicate OnlyHolds(w: World, k: nat) {
    forall j | 0 <= j < |w.flights| && j != k :: Pids(w.flights[j]) == {}
  }

  lemma OutageIsIdle(w: World, k: nat, landed: set<Pid>)
    requires Inv(w) && Enabled(w, Throw(k, landed)) && OnlyHolds(w, k)
    ensures var w' := Outage(w, k, landed); Inv(w') && Idle(w') && w'.lost == w.lost && w'.dropped == w.dropped
  {
    OutageKeepsInv(w, k, landed);
    OutageRows(w, k, landed);
  }

  lemma SettledIsIdle(w: World, k: nat, rejected: map<Pid, string>, max: Option<int>)
    requires Inv(w) && Enabled(w, Return(k, rejected)) && OnlyHolds(w, k)
    ensures var w' := Settled(w, k, rejected, max); Inv(w') && Idle(w') && w'.lost == w.lost && w'.dropped == w.dropped
  {
    SettledKeepsInv(w, k, rejected, max);
    SettledRows(w, k, rejected, max);
  }

  lemma TickKeepsInv(w: World, limit: Option<int>, max: Option<int>, a: Answer)
    requires Inv(w) && Idle(w) && Answers(Claimed(w.table, limit), a)
    ensures var w' := Tick(w, limit, max, a); Inv(w') && Idle(w') && w'.lost <= w.lost && w'.dropped == w.dropped
  {
    if Claimed(w.table, limit) != {} {
      ClaimSends(w, limit);
      IdleClaim(w, limit);
      var w1 := Apply(w, Claim(limit));
      match a
      case Threw(landed) => OutageIsIdle(w1, |w.flights|, landed);
      case Items(rejected) => SettledIsIdle(w1, |w.flights|, rejected, max);
    }
  }

  lemma SettledKeepsFlags(w: World, k: nat, rejected: map<Pid, string>, max: Option<int>)
    requires Inv(w) && FlagsInv(w) && FlightFlags(w) && Enabled(w, Return(k, rejected))
    ensures FlagsInv(Settled(w, k, rejected, max)) && FlightFlags(Settled(w, k, rejected, max))
  {
    var w1 := Apply(w, Return(k, rejected));
    StepKeepsInv(w, Return(k, rejected));
    StepKeepsFlagsIff(w, Return(k, rejected));
    var w2 := Apply(w1, MarkIndexed(k, true));
    StepKeepsInv(w1, MarkIndexed(k, true));
    StepKeepsFlagsIff(w1, MarkIndexed(k, true));
    var w3 := Apply(w2, MarkDeindexed(k, true));
    StepKeepsInv(w2, MarkDeindexed(k, true));
    StepKeepsFlagsIff(w2, MarkDeindexed(k, true));
    StepKeepsFlagsIff(w3, Record(k, max, true));
  }

  lemma OutageKeepsFlags(w: World, k: nat, landed: set<Pid>)
    requires Inv(w) && FlagsInv(w) && FlightFlags(w) && Enabled(w, Throw(k, landed))
    ensures FlagsInv(Outage(w, k, landed)) && FlightFlags(Outage(w, k, landed))
  {
    StepKeepsInv(w, Throw(k, landed));
    StepKeepsFlagsIff(w, Throw(k, landed));
    StepKeepsFlagsIff(Apply(w, Throw(k, landed)), Requeue(k, true));
  }

  lemma TickKeepsFlags(w: World, limit: Option<int>, max: Option<int>, a: Answer)
    requires Inv(w) && Idle(w) && FlagsInv(w) && FlightFlags(w) && Answers(Claimed(w.table, limit), a)
    ensures FlagsInv(Tick(w, limit, max, a)) && FlightFlags(Tick(w, limit, max, a))
  {
    if Claimed(w.table, limit) != {} {
      ClaimSends(w, limit);
      IdleClaim(w, limit);
      StepKeepsFlagsIff(w, Claim(limit));
      var w1 := Apply(w, Claim(limit));
      match a
      case Threw(landed) => OutageKeepsFlags(w1, |w.flights|, landed);
      case Items(rejected) => SettledKeepsFlags(w1, |w.flights|, rejected, max);
    }
  }

  function Weight(o: Obj, cap: nat): nat {
    if o.dirty then Max(1, cap - o.attempts) else 0
  }

  /** The attempts the dirty rows have left, at least one each. */
  function Measure(table: seq<Obj>, cap: nat): nat {
    if table == [] then 0 else Measure(table[..|table| - 1], cap) + Weight(table[|table| - 1], cap)
  }

  lemma {:induction false} MeasureFalls(t: seq<Obj>, t': seq<Obj>, cap: nat)
    requires |t| == |t'| && forall p: Pid | p < |t| :: Weight(t'[p], cap) <= Weight(t[p], cap)
    ensures Measure(t', cap) <= Measure(t, cap)
    ensures (exists p: Pid :: p < |t| && Weight(t'[p], cap) < Weight(t[p], cap)) ==> Measure(t', cap) < Measure(t, cap)
  {
    if t != [] {
      var init, init' := t[..|t| - 1], t'[..|t| - 1];
      assert forall p: Pid | p < |init| :: init[p] == t[p] && init'[p] == t'[p];
      MeasureFalls(init, init', cap);
    }
  }

  /** DRAIN, one tick: every tick that claims anything and is answered takes from the measure. */
  lemma TickFalls(w: World, limit: Option<int>, max: Option<int>, rejected: map<Pid, string>)
    requires Answers(Claimed(w.table, limit), Items(rejected))
    ensures var w' := Tick(w, limit, max, Items(rejected)); var cap := AttemptCap(max);
      && Measure(w'.table, cap) <= Measure(w.table, cap)
      && ((exists p: Pid :: p < |w.table| && w.table[p].dirty) ==> Measure(w'.table, cap) < Measure(w.table, cap))
  {
    var cap := AttemptCap(max);
    var ids := Claimed(w.table, limit);
    var w' := Tick(w, limit, max, Items(rejected));
    TickRows(w, limit, max, Items(rejected));
    DirtyIdsAre(w.table, 0, ClaimCap(limit));
    forall p: Pid | p < |w.table|
      ensures Weight(w'.table[p], cap) <= Weight(w.table[p], cap)
      ensures p in ids ==> Weight(w'.table[p], cap) < Weight(w.table[p], cap)
    {
    }
    MeasureFalls(w.table, w'.table, cap);
    if p: Pid :| p < |w.table| && w.table[p].dirty {
      if p !in ids {
        var q := DirtyIds(w.table, 0, ClaimCap(limit))[0];
        assert q in ids;
      }
    }
  }

  /** DRAIN. However the items fare, as many answered ticks as the measure leave nothing dirty,
      and the index exact. */
  lemma {:induction false} DrainIsExact(ws: seq<World>, answers: seq<map<Pid, string>>, limit: Option<int>, max: Option<int>)
    requires |ws| == |answers| + 1 && Inv(ws[0]) && Idle(ws[0]) && !ws[0].dropped && ws[0].lost == {}
    requires forall k | 0 <= k < |answers| ::
      Answers(Claimed(ws[k].table, limit), Items(answers[k])) && ws[k + 1] == Tick(ws[k], limit, max, Items(answers[k]))
    requires |answers| >= Measure(ws[0].table, AttemptCap(max))
    ensures Quiet(ws[|answers|]) && LiveDocs(ws[|answers|]) == Expected(ws[|answers|].table)
    decreases |answers|
  {
    var cap := AttemptCap(max);
    if |answers| == 0 {
      NothingDirty(ws[0].table, cap);
      QuietIsExact(ws[0]);
    } else {
      TickFalls(ws[0], limit, max, answers[0]);
      TickKeepsInv(ws[0], limit, max, Items(answers[0]));
      if !(exists p: Pid :: p < |ws[0].table| && ws[0].table[p].dirty) {
        NothingLeft(ws[0].table, cap);
      }
      var ws', answers' := ws[1..], answers[1..];
      forall k | 0 <= k < |answers'|
        ensures Answers(Claimed(ws'[k].table, limit), Items(answers'[k]))
        ensures ws'[k + 1] == Tick(ws'[k], limit, max, Items(answers'[k]))
      {
        assert ws'[k] == ws[k + 1] && ws'[k + 1] == ws[k + 2] && answers'[k] == answers[k + 1];
      }
      DrainIsExact(ws', answers', limit, max);
      assert ws'[|answers'|] == ws[|answers|];
    }
  }

  /** ... and every column as the index has it. */
  lemma {:induction false} DrainSetsFlags(ws: seq<World>, answers: seq<map<Pid, string>>, limit: Option<int>, max: Option<int>, n: nat)
    requires |ws| == |answers| + 1 && n < |ws| && Inv(ws[0]) && Idle(ws[0]) && FlagsInv(ws[0]) && FlightFlags(ws[0])
    requires forall k | 0 <= k < |answers| ::
      Answers(Claimed(ws[k].table, limit), Items(answers[k])) && ws[k + 1] == Tick(ws[k], limit, max, Items(answers[k]))
    ensures Inv(ws[n]) && Idle(ws[n]) && FlagsInv(ws[n]) && FlightFlags(ws[n])
    ensures ws[n].lost == {} && Quiet(ws[n]) ==> forall p: Pid | p < |ws[n].table| && ws[n].table[p].error.None? ::
      (ws[n].table[p].indexed <==> p in ws[n].es) && (ws[n].table[p].indexed <==> Eligible(ws[n].table[p]))
  {
    if n > 0 {
      DrainSetsFlags(ws, answers, limit, max, n - 1);
      assert ws[n - 1 + 1] == Tick(ws[n - 1], limit, max, Items(answers[n - 1]));
      TickKeepsInv(ws[n - 1], limit, max, Items(answers[n - 1]));
      TickKeepsFlags(ws[n - 1], limit, max, Items(answers[n - 1]));
    }
    if ws[n].lost == {} && Quiet(ws[n]) { QuietFlags(ws[n]); }
  }

  lemma {:induction false} NothingDirty(table: seq<Obj>, cap: nat)
    requires Measure(table, cap) == 0
    ensures forall p: Pid | p < |table| :: !table[p].dirty
  {
    if table != [] {
      var init := table[..|table| - 1];
      NothingDirty(init, cap);
      assert forall p: Pid | p < |init| :: table[p] == init[p];
    }
  }

  lemma {:induction false} NothingLeft(table: seq<Obj>, cap: nat)
    requires forall p: Pid | p < |table| :: !table[p].dirty
    ensures Measure(table, cap) == 0
  {
    if table != [] {
      NothingLeft(table[..|table| - 1], cap);
    }
  }
}
