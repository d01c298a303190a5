/** The indexer worker as it runs: the claim, one bulk call a tick, and the index probe with its
    backoff. Each tick is proved to be the tick of the search index's protocol. */
module IndexerWorker {
  import opened Basics
  import opened SearchIndex

  // --- one bulk call -------------------------------------------------------------------------

  datatype Op = Index(pid: Pid, body: Doc) | Delete(pid: Pid)

  /** One entry of the bulk response. */
  datatype Raw = Raw(status: nat, error: Option<string>)

  datatype Item = Item(op: Op, ok: bool, err: string)

  function BuildOp(p: Pid, row: Obj): Op {
    if Eligible(row) then Index(p, row.doc) else Delete(p)
  }

  /** How bulk_write reads entry i: a delete of an absent document succeeds, and so does an op
      that has no entry at all. */
  predicate ReadsOk(op: Op, raw: seq<Raw>, i: nat) {
    || i >= |raw|
    || (op.Delete? && raw[i].status == 404)
    || raw[i].error.None?
  }

  function ItemFor(op: Op, raw: seq<Raw>, i: nat): Item {
    if ReadsOk(op, raw, i) then Item(op, true, "") else Item(op, false, raw[i].error.value)
  }

  /** bulk_write's result items, aligned with the ops. */
  method BulkItems(ops: seq<Op>, raw: seq<Raw>) returns (items: seq<Item>)
    ensures |items| == |ops|
    ensures forall i | 0 <= i < |ops| :: items[i].op == ops[i]
    ensures forall i | 0 <= i < |ops| && i < |raw| ::
      items[i].ok <==> raw[i].error.None? || (ops[i].Delete? && raw[i].status == 404)
    ensures forall i | 0 <= i < |ops| && !items[i].ok :: i < |raw| && raw[i].error == Some(items[i].err)
    ensures forall i | |raw| <= i < |ops| :: items[i].ok
    ensures forall i | 0 <= i < |ops| :: items[i] == ItemFor(ops[i], raw, i)
  {
    items := [];
    var i := 0;
    while i < |ops|
      invariant 0 <= i <= |ops| && |items| == i
      invariant forall j | 0 <= j < i :: items[j] == ItemFor(ops[j], raw, j)
    {
      items := items + [ItemFor(ops[i], raw, i)];
      i := i + 1;
    }
  }

  /** The failures of a batch, by pid. */
  function RejectedBy(items: seq<Item>): map<Pid, string> {
    if items == [] then map[]
    else
      var rest := RejectedBy(items[..|items| - 1]);
      var last := items[|items| - 1];
      if last.ok then rest else rest[last.op.pid := last.err]
  }

  lemma {:induction false} RejectedAre(items: seq<Item>)
    requires forall i, j | 0 <= i < j < |items| :: items[i].op.pid != items[j].op.pid
    ensures forall i | 0 <= i < |items| :: items[i].op.pid in RejectedBy(items) <==> !items[i].ok
    ensures forall i | 0 <= i < |items| && !items[i].ok :: RejectedBy(items)[items[i].op.pid] == items[i].err
    ensures forall p | p in RejectedBy(items) :: exists i :: 0 <= i < |items| && items[i].op.pid == p
  {
    if items != [] {
      var init := items[..|items| - 1];
      RejectedAre(init);
      assert forall i | 0 <= i < |init| :: init[i] == items[i];
      assert items[|items| - 1].op.pid == items[|items| - 1].op.pid;
    }
  }

  // --- the index probe ---------------------------------------------------------------------------

  const ENSURE_BACKOFF_BASE_MS := 5000
  const ENSURE_BACKOFF_MAX_MS := 60000

  /** The cooldown after the n-th failed probe in a row. */
  function Delay(n: nat): nat
    requires n > 0
  {
    Min(ENSURE_BACKOFF_BASE_MS * Pow2(n - 1), ENSURE_BACKOFF_MAX_MS)
  }

  /** The cooldowns double from the base until they settle, from the fifth failure on, at the
      maximum: recovery is noticed within one maximum cooldown of the next tick. */
  lemma DelayIs(n: nat)
    requires n > 0
    ensures Delay(n) <= Delay(n + 1) <= 2 * Delay(n)
    ensures n < 5 ==> Delay(n) == 5000 * Pow2(n - 1)
    ensures n >= 5 <==> Delay(n) == 60000
  {
    Pow2Grows(n - 1, n);
    assert Pow2(4) == 16 && Pow2(3) == 8 && Pow2(2) == 4 && Pow2(1) == 2;
    if n >= 5 { Pow2Grows(4, n - 1); }
  }

  // --- the worker ----------------------------------------------------------------------------------

  /** What the bulk call of a tick comes to, given its ops. */
  datatype Bulk = CallThrew(landed: set<Pid>) | CallAnswered(raw: seq<Raw>)

  predicate Ascending(ids: seq<Pid>) {
    forall i, j | 0 <= i < j < |ids| :: ids[i] < ids[j]
  }

  function OpsOf(ids: seq<Pid>, snaps: map<Pid, Obj>): seq<Op>
    requires forall p | p in ids :: p in snaps
  {
    seq(|ids|, i requires 0 <= i < |ids| => assert ids[i] in ids; BuildOp(ids[i], snaps[ids[i]]))
  }

  function ItemsOf(ops: seq<Op>, raw: seq<Raw>): seq<Item> {
    seq(|ops|, i requires 0 <= i < |ops| => ItemFor(ops[i], raw, i))
  }

  /** The protocol's answer for the same bulk call. */
  function AnswerFor(table: seq<Obj>, limit: Option<int>, bulk: Bulk): Answer
  {
    var ids := DirtyIds(table, 0, ClaimCap(limit));
    match bulk
    case CallThrew(landed) => Threw(landed * Claimed(table, limit))
    case CallAnswered(raw) =>
      DirtyIdsAre(table, 0, ClaimCap(limit));
      Items(RejectedBy(ItemsOf(OpsOf(ids, SnapshotOf(table, Claimed(table, limit))), raw)))
  }

  lemma {:induction false} DirtyIdsAscend(table: seq<Obj>, from: nat, cap: nat)
    requires from <= |table|
    ensures Ascending(DirtyIds(table, from, cap))
    decreases |table| - from
  {
    if from < |table| && cap > 0 {
      var cap' := if table[from].dirty then cap - 1 else cap;
      DirtyIdsAscend(table, from + 1, cap');
      DirtyIdsAre(table, from + 1, cap');
      var rest := DirtyIds(table, from + 1, cap');
      assert forall j | 0 <= j < |rest| :: rest[j] in rest;
    }
  }

  lemma AnswerFits(table: seq<Obj>, limit: Option<int>, bulk: Bulk)
    ensures Answers(Claimed(table, limit), AnswerFor(table, limit, bulk))
  {
    if bulk.CallAnswered? {
      var ids := DirtyIds(table, 0, ClaimCap(limit));
      DirtyIdsAre(table, 0, ClaimCap(limit));
      DirtyIdsAscend(table, 0, ClaimCap(limit));
      var items := ItemsOf(OpsOf(ids, SnapshotOf(table, Claimed(table, limit))), bulk.raw);
      assert forall i | 0 <= i < |items| :: items[i].op.pid == ids[i];
      RejectedAre(items);
    }
  }

  /** The index after the tick's bulk call. */
  lemma TickEs(w: World, limit: Option<int>, max: Option<int>, a: Answer)
    requires Answers(Claimed(w.table, limit), a)
    ensures var snaps := SnapshotOf(w.table, Claimed(w.table, limit));
      && snaps.Keys == Claimed(w.table, limit)
      && Tick(w, limit, max, a).es ==
           Written(w.es, snaps, if a.Threw? then a.landed else snaps.Keys - a.rejected.Keys)
  {
    ClaimSends(w, limit);
    var w1 := Apply(w, Claim(limit));
    var snaps := SnapshotOf(w.table, Claimed(w.table, limit));
    if Claimed(w.table, limit) == {} {
      assert Written(w.es, snaps, {}) == w.es;
    } else {
      match a
      case Threw(landed) => OutageRows(w1, |w.flights|, landed);
      case Items(rejected) => SettledRows(w1, |w.flights|, rejected, max);
    }
  }

  /** The pids whose op succeeded, by kind of op. */
  function OkPids(items: seq<Item>, index: bool): set<Pid> {
    set j | 0 <= j < |items| && items[j].ok && items[j].op.Index? == index :: items[j].op.pid
  }

  lemma OkPidsSnoc(items: seq<Item>, item: Item, index: bool)
    ensures OkPids(items + [item], index) ==
            OkPids(items, index) + if item.ok && item.op.Index? == index then {item.op.pid} else {}
  {
    var all := items + [item];
    forall p
      ensures p in OkPids(all, index) <==>
              p in OkPids(items, index) + if item.ok && item.op.Index? == index then {item.op.pid} else {}
    {
      if p in OkPids(items, index) {
        var j :| 0 <= j < |items| && items[j].ok && items[j].op.Index? == index && items[j].op.pid == p;
        assert all[j] == items[j];
      }
      assert all[|items|] == item;
    }
  }

  function Members(ids: seq<Pid>): set<Pid> {
    set p | p in ids
  }

  lemma MembersSnoc(ids: seq<Pid>, p: Pid)
    ensures Members(ids + [p]) == Members(ids) + {p}
  {
  }

  lemma RejectedSnoc(items: seq<Item>, item: Item)
    ensures RejectedBy(items + [item]) ==
            if item.ok then RejectedBy(items) else RejectedBy(items)[item.op.pid := item.err]
  {
    assert (items + [item])[..|items|] == items;
  }

  /** process_batch's three lists. */
  method SortItems(items: seq<Item>) returns (indexed: seq<Pid>, deindexed: seq<Pid>, failed: map<Pid, string>)
    ensures failed == RejectedBy(items)
    ensures Members(indexed) == OkPids(items, true)
    ensures Members(deindexed) == OkPids(items, false)
  {
    indexed, deindexed, failed := [], [], map[];
    ghost var done: seq<Item> := [];
    var i := 0;
    while i < |items|
      invariant 0 <= i <= |items| && done == items[..i] && failed == RejectedBy(done)
      invariant Members(indexed) == OkPids(done, true)
      invariant Members(deindexed) == OkPids(done, false)
    {
      var item := items[i];
      OkPidsSnoc(done, item, true);
      OkPidsSnoc(done, item, false);
      RejectedSnoc(done, item);
      if !item.ok {
        failed := failed[item.op.pid := item.err];
      } else if item.op.Index? {
        MembersSnoc(indexed, item.op.pid);
        indexed := indexed + [item.op.pid];
      } else {
        MembersSnoc(deindexed, item.op.pid);
        deindexed := deindexed + [item.op.pid];
      }
      done := done + [item];
      i := i + 1;
    }
    assert done == items;
  }

  ghost predicate ItemsFor(items: seq<Item>, ids: seq<Pid>, batch: map<Pid, Obj>) {
    && |items| == |ids|
    && forall i | 0 <= i < |ids| :: ids[i] in batch && items[i].op == BuildOp(ids[i], batch[ids[i]])
  }

  lemma RejectedAt(items: seq<Item>, ids: seq<Pid>, batch: map<Pid, Obj>, i: nat)
    requires ItemsFor(items, ids, batch) && Ascending(ids) && i < |ids|
    ensures items[i].op.pid == ids[i] && (ids[i] in RejectedBy(items) <==> !items[i].ok)
    ensures items[i].op.Index? <==> Eligible(batch[ids[i]])
    ensures RejectedBy(items).Keys <= batch.Keys
  {
    assert forall j | 0 <= j < |items| :: items[j].op.pid == ids[j];
    RejectedAre(items);
  }

  lemma OkPidsAre(items: seq<Item>, ids: seq<Pid>, batch: map<Pid, Obj>, rejected: map<Pid, string>, index: bool)
    requires ItemsFor(items, ids, batch) && Ascending(ids) && (forall p | p in batch :: p in ids) && rejected == RejectedBy(items)
    ensures OkPids(items, index) == set p | p in batch && p !in rejected && Eligible(batch[p]) == index
  {
    var meant := set p | p in batch && p !in rejected && Eligible(batch[p]) == index;
    forall p | p in OkPids(items, index) ensures p in meant {
      var j :| 0 <= j < |items| && items[j].ok && items[j].op.Index? == index && items[j].op.pid == p;
      RejectedAt(items, ids, batch, j);
    }
    forall p | p in meant ensures p in OkPids(items, index) {
      var j :| 0 <= j < |ids| && ids[j] == p;
      RejectedAt(items, ids, batch, j);
    }
  }

  /** Every success of a batch is in the list of its op, and nothing else is. */
  lemma SortedOut(ids: seq<Pid>, batch: map<Pid, Obj>, raw: seq<Raw>)
    requires Ascending(ids) && batch.Keys == set p | p in ids
    ensures var items := ItemsOf(OpsOf(ids, batch), raw); var rejected := RejectedBy(items);
      && rejected.Keys <= batch.Keys
      && OkPids(items, true) == (set p | p in batch && p !in rejected && Eligible(batch[p]))
      && OkPids(items, false) == (set p | p in batch && p !in rejected && !Eligible(batch[p]))
  {
    var items := ItemsOf(OpsOf(ids, batch), raw);
    assert ItemsFor(items, ids, batch) by {
      assert forall i | 0 <= i < |ids| :: ids[i] in ids;
    }
    OkPidsAre(items, ids, batch, RejectedBy(items), true);
    OkPidsAre(items, ids, batch, RejectedBy(items), false);
    if ids == [] {
      assert items == [];
    } else {
      RejectedAt(items, ids, batch, 0);
    }
  }

  method ReadAnswer(ids: seq<Pid>, batch: map<Pid, Obj>, raw: seq<Raw>)
      returns (indexed: set<Pid>, deindexed: set<Pid>, failed: map<Pid, string>)
    requires Ascending(ids) && batch.Keys == set p | p in ids
    ensures failed == RejectedBy(ItemsOf(OpsOf(ids, batch), raw)) && failed.Keys <= batch.Keys
    ensures indexed == (set p | p in batch && p !in failed && Eligible(batch[p]))
    ensures deindexed == (set p | p in batch && p !in failed && !Eligible(batch[p]))
  {
    var ops := OpsOf(ids, batch);
    var items := BulkItems(ops, raw);
    assert items == ItemsOf(ops, raw);
    var indexedPids, deindexedPids;
    indexedPids, deindexedPids, failed := SortItems(items);
    SortedOut(ids, batch, raw);
    indexed, deindexed := Members(indexedPids), Members(deindexedPids);
  }

  /** The table after a batch that threw. */
  ghost predicate RequeuedRows(before: seq<Obj>, after: seq<Obj>, batch: map<Pid, Obj>) {
    && |after| == |before|
    && forall p: Pid | p < |before| :: after[p] == if p in batch then before[p].(dirty := true) else before[p]
  }

  /** The table after a batch that was answered. */
  ghost predicate SettledTable(before: seq<Obj>, after: seq<Obj>, batch: map<Pid, Obj>, rejected: map<Pid, string>, cap: nat) {
    && |after| == |before|
    && forall p: Pid | p < |before| ::
         after[p] == if p in rejected then Failed(before[p], cap, rejected[p])
                     else if p in batch then Marked(before[p], Eligible(batch[p])) else before[p]
  }

  ghost predicate UpdatedRows(before: seq<Obj>, after: seq<Obj>, pids: set<Pid>, f: Obj -> Obj) {
    && |after| == |before|
    && forall p: Pid | p < |before| :: after[p] == if p in pids then f(before[p]) else before[p]
  }

  ghost predicate FailedTable(before: seq<Obj>, after: seq<Obj>, failures: map<Pid, string>, cap: nat) {
    && |after| == |before|
    && forall p: Pid | p < |before| :: after[p] == if p in failures then Failed(before[p], cap, failures[p]) else before[p]
  }

  ghost predicate ParkedRows(before: seq<Obj>, after: seq<Obj>, pids: set<Pid>, failures: map<Pid, string>)
    requires pids <= failures.Keys
  {
    && |after| == |before|
    && forall p: Pid | p < |before| ::
         after[p] == if p in pids then before[p].(dirty := false, error := Some(Reason(failures[p]))) else before[p]
  }

  lemma FailuresAdd(t0: seq<Obj>, t1: seq<Obj>, t2: seq<Obj>, t3: seq<Obj>, failures: map<Pid, string>, cap: nat,
                    again: set<Pid>, dead: set<Pid>)
    requires UpdatedRows(t0, t1, failures.Keys, (o: Obj) => o.(attempts := o.attempts + 1))
    requires forall p | p in failures :: p < |t0|
    requires again == (set p | p in failures && t1[p].attempts < cap) && dead == failures.Keys - again
    requires UpdatedRows(t1, t2, again, (o: Obj) => o.(dirty := true)) && ParkedRows(t2, t3, dead, failures)
    ensures FailedTable(t0, t3, failures, cap)
  {
    forall p: Pid | p < |t0| ensures t3[p] == if p in failures then Failed(t0[p], cap, failures[p]) else t0[p] {
      if p in failures {
        assert t1[p] == t0[p].(attempts := t0[p].attempts + 1);
      }
    }
  }

  lemma SettlingAdds(t0: seq<Obj>, t1: seq<Obj>, t2: seq<Obj>, t3: seq<Obj>, batch: map<Pid, Obj>,
                     rejected: map<Pid, string>, cap: nat)
    requires rejected.Keys <= batch.Keys
    requires UpdatedRows(t0, t1, (set p | p in batch && p !in rejected && Eligible(batch[p])), (o: Obj) => Marked(o, true))
    requires UpdatedRows(t1, t2, (set p | p in batch && p !in rejected && !Eligible(batch[p])), (o: Obj) => Marked(o, false))
    requires FailedTable(t2, t3, rejected, cap)
    ensures SettledTable(t0, t3, batch, rejected, cap)
  {
  }

  /** What Elasticsearch made of the i-th row of a batch: the row is taken if it has no entry or one
      without an error, and also if the row was to be deleted and was not there. */
  predicate Takes(row: Obj, raw: seq<Raw>, i: nat) {
    i < |raw| && raw[i].error.Some? ==> !(row.published && row.active) && raw[i].status == 404
  }

  /** The table after an answered batch, read off the rows and the entries: a row that was taken has
      its counters cleared and is_indexed set exactly if its snapshot is published and active, any
      other has spent an attempt, and no row outside the batch changes. */
  ghost predicate AnsweredTable(before: seq<Obj>, after: seq<Obj>, ids: seq<Pid>, batch: map<Pid, Obj>, raw: seq<Raw>, cap: nat)
    requires batch.Keys == (set p | p in ids) && forall p | p in ids :: p < |before|
  {
    && |after| == |before|
    && (forall p: Pid | p < |before| && p !in ids :: after[p] == before[p])
    && forall i | 0 <= i < |ids| :: assert ids[i] in ids;
         var o, row := before[ids[i]], batch[ids[i]];
         if Takes(row, raw, i)
         then after[ids[i]] == o.(indexed := row.published && row.active, attempts := 0, error := None)
         else Penalised(o, after[ids[i]], cap, raw[i].error.value)
  }

  lemma SettledIsAnswered(before: seq<Obj>, after: seq<Obj>, ids: seq<Pid>, batch: map<Pid, Obj>, raw: seq<Raw>, cap: nat)
    requires Ascending(ids) && batch.Keys == (set p | p in ids) && forall p | p in ids :: p < |before|
    requires SettledTable(before, after, batch, RejectedBy(ItemsOf(OpsOf(ids, batch), raw)), cap)
    ensures AnsweredTable(before, after, ids, batch, raw, cap)
  {
    var items := ItemsOf(OpsOf(ids, batch), raw);
    SortedOut(ids, batch, raw);
    forall i | 0 <= i < |ids|
      ensures ids[i] in batch && ids[i] < |before|
      ensures var o, row := before[ids[i]], batch[ids[i]];
        if Takes(row, raw, i)
        then after[ids[i]] == o.(indexed := row.published && row.active, attempts := 0, error := None)
        else Penalised(o, after[ids[i]], cap, raw[i].error.value)
    {
      assert ids[i] in ids;
      AnsweredRow(before, after, ids, batch, raw, cap, i);
    }
  }

  lemma RejectedIs(ids: seq<Pid>, batch: map<Pid, Obj>, raw: seq<Raw>, i: nat)
    requires Ascending(ids) && batch.Keys == (set p | p in ids) && i < |ids|
    ensures ids[i] in batch
    ensures var rejected := RejectedBy(ItemsOf(OpsOf(ids, batch), raw));
      && (ids[i] in rejected <==> !Takes(batch[ids[i]], raw, i))
      && (ids[i] in rejected ==> rejected[ids[i]] == raw[i].error.value)
  {
    var items := ItemsOf(OpsOf(ids, batch), raw);
    forall j | 0 <= j < |ids| ensures ids[j] in batch && items[j].op == BuildOp(ids[j], batch[ids[j]]) { assert ids[j] in ids; }
    RejectedAt(items, ids, batch, i);
    assert forall j | 0 <= j < |items| :: items[j].op.pid == ids[j];
    RejectedAre(items);
  }

  lemma AnsweredRow(before: seq<Obj>, after: seq<Obj>, ids: seq<Pid>, batch: map<Pid, Obj>, raw: seq<Raw>, cap: nat, i: nat)
    requires Ascending(ids) && batch.Keys == (set p | p in ids) && i < |ids| && ids[i] in batch && ids[i] < |before|
    requires SettledTable(before, after, batch, RejectedBy(ItemsOf(OpsOf(ids, batch), raw)), cap)
    ensures var o, row := before[ids[i]], batch[ids[i]];
      if Takes(row, raw, i)
      then after[ids[i]] == o.(indexed := row.published && row.active, attempts := 0, error := None)
      else Penalised(o, after[ids[i]], cap, raw[i].error.value)
  {
    RejectedIs(ids, batch, raw, i);
    if !Takes(batch[ids[i]], raw, i) { FailedIs(before[ids[i]], cap, raw[i].error.value); }
  }

  /** The index after an answered batch, likewise: the document of a published and active row that was
      taken is in it, that of any other taken row is not, and nothing else changes. */
  ghost predicate AnsweredIndex(before: Es, after: Es, ids: seq<Pid>, batch: map<Pid, Obj>, raw: seq<Raw>)
    requires batch.Keys == (set p | p in ids)
  {
    && (forall p: Pid | p !in ids :: Lookup(after, p) == Lookup(before, p))
    && forall i | 0 <= i < |ids| :: assert ids[i] in ids;
         var row := batch[ids[i]];
         Lookup(after, ids[i]) ==
           if !Takes(row, raw, i) then Lookup(before, ids[i])
           else if row.published && row.active then Some(row.doc) else None
  }

  lemma WrittenIsAnswered(es: Es, ids: seq<Pid>, batch: map<Pid, Obj>, raw: seq<Raw>)
    requires Ascending(ids) && batch.Keys == (set p | p in ids)
    ensures AnsweredIndex(es, Written(es, batch, batch.Keys - RejectedBy(ItemsOf(OpsOf(ids, batch), raw)).Keys), ids, batch, raw)
  {
    var rejected := RejectedBy(ItemsOf(OpsOf(ids, batch), raw));
    forall p: Pid ensures Lookup(Written(es, batch, batch.Keys - rejected.Keys), p) ==
                    if p in batch.Keys - rejected.Keys then Target(batch[p]) else Lookup(es, p)
    {
      WrittenLookup(es, batch, batch.Keys - rejected.Keys, p);
    }
    forall i | 0 <= i < |ids|
      ensures ids[i] in batch && (ids[i] in rejected <==> !Takes(batch[ids[i]], raw, i))
    {
      RejectedIs(ids, batch, raw, i);
    }
  }

  /** A whole tick, from the table it found: a claimed row that was taken ends clean. */
  ghost predicate TickedTable(before: seq<Obj>, after: seq<Obj>, ids: seq<Pid>, raw: seq<Raw>, cap: nat)
    requires forall p | p in ids :: p < |before|
  {
    && |after| == |before|
    && (forall p: Pid | p < |before| && p !in ids :: after[p] == before[p])
    && forall i | 0 <= i < |ids| :: assert ids[i] in ids;
         var o := before[ids[i]];
         if Takes(o, raw, i) then Recorded(o, after[ids[i]], o.published && o.active)
         else Penalised(o, after[ids[i]], cap, raw[i].error.value)
  }

  lemma ClaimedThenAnswered(t0: seq<Obj>, t1: seq<Obj>, t2: seq<Obj>, limit: Option<int>, raw: seq<Raw>, cap: nat)
    requires UpdatedRows(t0, t1, Claimed(t0, limit), (o: Obj) => o.(dirty := false))
    requires var ids := DirtyIds(t0, 0, ClaimCap(limit));
      && SnapshotOf(t0, Claimed(t0, limit)).Keys == (set p | p in ids) && (forall p | p in ids :: p < |t0|)
      && AnsweredTable(t1, t2, ids, SnapshotOf(t0, Claimed(t0, limit)), raw, cap)
    ensures TickedTable(t0, t2, DirtyIds(t0, 0, ClaimCap(limit)), raw, cap)
  {
    var ids: seq<Pid> := DirtyIds(t0, 0, ClaimCap(limit));
    var batch := SnapshotOf(t0, Claimed(t0, limit));
    forall i | 0 <= i < |ids|
      ensures ids[i] in ids && ids[i] < |t0|
      ensures t1[ids[i]] == t0[ids[i]].(dirty := false) && ids[i] in batch && batch[ids[i]] == t0[ids[i]].(dirty := false)
    {
      assert ids[i] in ids;
    }
  }

  lemma AnswerIs(table: seq<Obj>, limit: Option<int>, bulk: Bulk)
    ensures var ids := DirtyIds(table, 0, ClaimCap(limit)); var batch := SnapshotOf(table, Claimed(table, limit));
      && batch.Keys == (set p | p in ids) && batch.Keys == Claimed(table, limit)
      && (bulk.CallThrew? ==> AnswerFor(table, limit, bulk) == Threw(bulk.landed * batch.Keys))
      && (bulk.CallAnswered? ==> AnswerFor(table, limit, bulk) == Items(RejectedBy(ItemsOf(OpsOf(ids, batch), bulk.raw))))
  {
    DirtyIdsAre(table, 0, ClaimCap(limit));
    var ids := DirtyIds(table, 0, ClaimCap(limit)); var batch := SnapshotOf(table, Claimed(table, limit));
    assert batch.Keys == set p | p in ids;
  }

  /** The claim followed by the batch is the protocol's tick. */
  lemma TickMatches(w: World, t1: seq<Obj>, t2: seq<Obj>, es: Es, limit: Option<int>, max: Option<int>, bulk: Bulk)
    requires UpdatedRows(w.table, t1, Claimed(w.table, limit), (o: Obj) => o.(dirty := false))
    requires var batch := SnapshotOf(w.table, Claimed(w.table, limit));
      var a := AnswerFor(w.table, limit, bulk);
      && es == Written(w.es, batch, if a.Threw? then a.landed * batch.Keys else batch.Keys - a.rejected.Keys)
      && (a.Threw? ==> RequeuedRows(t1, t2, batch))
      && (a.Items? ==> SettledTable(t1, t2, batch, a.rejected, AttemptCap(max)))
    ensures Answers(Claimed(w.table, limit), AnswerFor(w.table, limit, bulk))
    ensures var w' := SearchIndex.Tick(w, limit, max, AnswerFor(w.table, limit, bulk)); t2 == w'.table && es == w'.es
  {
    var a := AnswerFor(w.table, limit, bulk);
    var ids := Claimed(w.table, limit);
    AnswerFits(w.table, limit, bulk);
    TickRows(w, limit, max, a);
    TickEs(w, limit, max, a);
    var batch := SnapshotOf(w.table, ids);
    DirtyIdsAre(w.table, 0, ClaimCap(limit));
    assert a.Threw? ==> a.landed * batch.Keys == a.landed;
    forall p: Pid | p < |w.table| ensures t2[p] == Ticked(w.table[p], p, ids, AttemptCap(max), a) {
      assert p in ids ==> w.table[p].dirty && batch[p] == w.table[p].(dirty := false);
    }
  }

  class Indexer {
    var table: seq<Obj>
    var es: Es
    var ensured: bool
    var ensuring: bool
    var ensureFailCount: nat
    var ensureCooldownUntil: int

    ghost function W(): World
      reads this
    {
      World(table, es, [], {}, false)
    }

    method ClaimDirty(limit: Option<int>) returns (ids: seq<Pid>, batch: map<Pid, Obj>)
      modifies this`table
      ensures ids == DirtyIds(old(table), 0, ClaimCap(limit)) && Ascending(ids)
      ensures forall p | p in ids :: p < |table|
      ensures batch == SnapshotOf(old(table), Claimed(old(table), limit)) && batch.Keys == set p | p in ids
      ensures UpdatedRows(old(table), table, Claimed(old(table), limit), (o: Obj) => o.(dirty := false))
    {
      DirtyIdsAre(table, 0, ClaimCap(limit));
      DirtyIdsAscend(table, 0, ClaimCap(limit));
      ids := DirtyIds(table, 0, ClaimCap(limit));
      batch := SnapshotOf(table, Claimed(table, limit));
      if ids == [] { return; }
      UpdateWhere(Claimed(table, limit), (o: Obj) => o.(dirty := false));
    }

    /** UPDATE … WHERE pid IN (…). */
    method UpdateWhere(pids: set<Pid>, f: Obj -> Obj)
      modifies this`table
      ensures UpdatedRows(old(table), table, pids, f)
    {
      if pids == {} { return; }
      table := OnRows(table, f, (p: Pid, o: Obj) => p in pids);
    }

    /** A write of its own for each dead letter. */
    method DeadLetter(pids: set<Pid>, failures: map<Pid, string>)
      requires pids <= failures.Keys && forall p | p in failures :: p < |table|
      modifies this`table
      ensures ParkedRows(old(table), table, pids, failures)
    {
      ghost var was := table;
      var left := pids;
      while left != {}
        invariant left <= pids && ParkedRows(was, table, pids - left, failures)
      {
        var p :| p in left;
        table := table[p := table[p].(dirty := false, error := Some(Reason(failures[p])))];
        left := left - {p};
      }
    }

    /** record_failures: increments every row, requeues those under the cap, parks the others. */
    method RecordFailures(failures: map<Pid, string>, max: Option<int>) returns (requeued: set<Pid>, deadLettered: set<Pid>)
      requires forall p | p in failures :: p < |table|
      modifies this`table
      ensures FailedTable(old(table), table, failures, AttemptCap(max))
      ensures |table| == |old(table)| && forall p: Pid | p < |table| && p !in failures :: table[p] == old(table)[p]
      ensures forall p | p in failures :: Penalised(old(table)[p], table[p], AttemptCap(max), failures[p])
      ensures requeued == (set p | p in failures && table[p].attempts < AttemptCap(max)) && deadLettered == failures.Keys - requeued
    {
      var cap := AttemptCap(max);
      ghost var t0 := table;
      UpdateWhere(failures.Keys, (o: Obj) => o.(attempts := o.attempts + 1));
      var t1 := table;
      requeued := set p | p in failures && t1[p].attempts < cap;
      deadLettered := failures.Keys - requeued;
      UpdateWhere(requeued, (o: Obj) => o.(dirty := true));
      ghost var t2 := table;
      DeadLetter(deadLettered, failures);
      FailuresAdd(t0, t1, t2, table, failures, cap, requeued, deadLettered);
      forall p | p in failures ensures Penalised(t0[p], table[p], cap, failures[p]) { FailedIs(t0[p], cap, failures[p]); }
    }

    method Settle(ids: seq<Pid>, batch: map<Pid, Obj>, raw: seq<Raw>, max: Option<int>)
      requires Ascending(ids) && batch.Keys == (set p | p in ids) && forall p | p in ids :: p < |table|
      modifies this`table, this`es
      ensures var rejected := RejectedBy(ItemsOf(OpsOf(ids, batch), raw));
        && es == Written(old(es), batch, batch.Keys - rejected.Keys)
        && SettledTable(old(table), table, batch, rejected, AttemptCap(max))
      ensures AnsweredTable(old(table), table, ids, batch, raw, AttemptCap(max)) && AnsweredIndex(old(es), es, ids, batch, raw)
    {
      var indexed, deindexed, failed := ReadAnswer(ids, batch, raw);
      es := Written(es, batch, batch.Keys - failed.Keys);
      ghost var t0 := table;
      UpdateWhere(indexed, (o: Obj) => Marked(o, true));
      ghost var t1 := table;
      UpdateWhere(deindexed, (o: Obj) => Marked(o, false));
      ghost var t2 := table;
      var requeued, deadLettered := RecordFailures(failed, max);
      SettlingAdds(t0, t1, t2, table, batch, failed, AttemptCap(max));
      SettledIsAnswered(t0, table, ids, batch, raw, AttemptCap(max));
      WrittenIsAnswered(old(es), ids, batch, raw);
    }

    /** process_batch; `builds`: every op could be shaped. Otherwise it throws before the bulk call. */
    method ProcessBatch(ids: seq<Pid>, batch: map<Pid, Obj>, builds: bool, bulk: Bulk, max: Option<int>)
      requires Ascending(ids) && batch.Keys == (set p | p in ids) && forall p | p in ids :: p < |table|
      modifies this`table, this`es
      ensures !builds ==> table == old(table) && es == old(es)
      ensures builds && bulk.CallThrew? ==>
        es == Written(old(es), batch, bulk.landed * batch.Keys) && RequeuedRows(old(table), table, batch)
      ensures builds && bulk.CallAnswered? ==>
        var rejected := RejectedBy(ItemsOf(OpsOf(ids, batch), bulk.raw));
        && es == Written(old(es), batch, batch.Keys - rejected.Keys)
        && SettledTable(old(table), table, batch, rejected, AttemptCap(max))
      ensures builds && bulk.CallAnswered? ==>
        AnsweredTable(old(table), table, ids, batch, bulk.raw, AttemptCap(max)) && AnsweredIndex(old(es), es, ids, batch, bulk.raw)
    {
      if !builds { return; }
      match bulk
      case CallThrew(landed) =>
        es := Written(es, batch, landed * batch.Keys);
        UpdateWhere(batch.Keys, (o: Obj) => o.(dirty := true));
      case CallAnswered(raw) =>
        Settle(ids, batch, raw, max);
    }

    /** The ensure_index of a tick: skipped while another tick's is under way and during the
        cooldown, which counts from the time at which the attempt failed. */
    method Probe(now: int, failedAt: int, probeOk: bool) returns (up: bool)
      modifies this`ensured, this`ensuring, this`ensureFailCount, this`ensureCooldownUntil
      ensures up <==> old(ensured) || (!old(ensuring) && now >= old(ensureCooldownUntil) && probeOk)
      ensures ensured == up && ensuring == old(ensuring)
      ensures up && !old(ensured) ==> ensureFailCount == 0 && ensureCooldownUntil == 0
      ensures old(ensured) || old(ensuring) || now < old(ensureCooldownUntil) ==>
        ensureFailCount == old(ensureFailCount) && ensureCooldownUntil == old(ensureCooldownUntil)
      ensures !up && !old(ensuring) && now >= old(ensureCooldownUntil) ==>
        ensureFailCount == old(ensureFailCount) + 1 && ensureCooldownUntil == failedAt + Delay(ensureFailCount)
    {
      if ensured { return true; }
      if ensuring || now < ensureCooldownUntil { return false; }
      ensuring := true;
      if probeOk {
        ensured, ensureFailCount, ensureCooldownUntil := true, 0, 0;
      } else {
        ensureFailCount := ensureFailCount + 1;
        ensureCooldownUntil := failedAt + Delay(ensureFailCount);
      }
      ensuring := false;
      return probeOk;
    }

    /** One tick. The clock and the outcome of the probe, of the claim, of the shaping of the ops
        and of the bulk call come from outside. */
    method Tick(stopping: bool, configured: bool, now: int, failedAt: int, probeOk: bool, claims: bool, builds: bool,
                limit: Option<int>, max: Option<int>, bulk: Bulk)
      modifies this
      ensures stopping || !configured ==> ensured == old(ensured)
      ensures stopping || !configured || old(ensured) || old(ensuring) || now < old(ensureCooldownUntil) ==>
        ensureFailCount == old(ensureFailCount) && ensureCooldownUntil == old(ensureCooldownUntil)
      ensures !stopping && configured && !ensured && !old(ensuring) && now >= old(ensureCooldownUntil) ==>
        ensureFailCount == old(ensureFailCount) + 1 && ensureCooldownUntil == failedAt + Delay(ensureFailCount)
      ensures stopping || !configured || !ensured || !claims ==> table == old(table) && es == old(es)
      ensures !stopping && configured ==>
        (ensured <==> old(ensured) || (!old(ensuring) && now >= old(ensureCooldownUntil) && probeOk))
      ensures !stopping && configured && ensured && claims && !builds ==>
        es == old(es) && UpdatedRows(old(table), table, Claimed(old(table), limit), (o: Obj) => o.(dirty := false))
      ensures !stopping && configured && ensured && claims && builds ==>
        && Answers(Claimed(old(table), limit), AnswerFor(old(table), limit, bulk))
        && var w' := SearchIndex.Tick(old(W()), limit, max, AnswerFor(old(table), limit, bulk));
           table == w'.table && es == w'.es
      ensures !stopping && configured && ensured && claims && builds && bulk.CallAnswered? ==>
        && (forall p | p in DirtyIds(old(table), 0, ClaimCap(limit)) :: p < |old(table)|)
        && TickedTable(old(table), table, DirtyIds(old(table), 0, ClaimCap(limit)), bulk.raw, AttemptCap(max))
      ensures !stopping && configured && ensured && claims && builds && bulk.CallThrew? ==> table == old(table)
    {
      if stopping || !configured { return; }
      var up := Probe(now, failedAt, probeOk);
      if !up || !claims { return; }
      AnswerIs(table, limit, bulk);
      var ids, batch := ClaimDirty(limit);
      ghost var t1 := table;
      ProcessBatch(ids, batch, builds, bulk, max);
      if !builds { return; }
      TickMatches(old(W()), t1, table, es, limit, max, bulk);
      if bulk.CallAnswered? {
        ClaimedThenAnswered(old(table), t1, table, limit, bulk.raw, AttemptCap(max));
      } else {
        TickRows(old(W()), limit, max, AnswerFor(old(table), limit, bulk));
      }
    }
  }
}
