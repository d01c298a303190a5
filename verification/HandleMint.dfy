/** Minting hand-made handles: rows recorded as pending, one batched helper call, and the
    reconciliation of the rows with what the call brought back. */
module HandleMint {
  import opened Basics
  import opened HandleBatch
  import opened HandleCuts

  datatype Status = PENDING | MINTED | FAILED | DELETING | DELETED

  datatype Record = Record(suffix: string, status: Status, message: Option<string>)

  /** by_suffix: the last result for a suffix. */
  function ResultOf(results: seq<OpResult>, suffix: string): Option<OpResult> {
    if results == [] then None
    else if results[|results| - 1].suffix == suffix then Some(results[|results| - 1])
    else ResultOf(results[..|results| - 1], suffix)
  }

  /** The last result for the suffix, and none only if there is none. */
  lemma {:induction false} LastResult(results: seq<OpResult>, suffix: string)
    ensures ResultOf(results, suffix).None? <==> forall k | 0 <= k < |results| :: results[k].suffix != suffix
    ensures ResultOf(results, suffix).Some? ==> exists k | 0 <= k < |results| ::
      && results[k] == ResultOf(results, suffix).value && results[k].suffix == suffix
      && forall j | k < j < |results| :: results[j].suffix != suffix
  {
    if results != [] {
      var n := |results| - 1;
      LastResult(results[..n], suffix);
      if results[n].suffix != suffix && ResultOf(results[..n], suffix).Some? {
        var k :| 0 <= k < n && results[..n][k] == ResultOf(results[..n], suffix).value && results[..n][k].suffix == suffix
          && forall j | k < j < n :: results[..n][j].suffix != suffix;
        assert results[k] == results[..n][k] && forall j | k < j < n :: results[j] == results[..n][j];
      }
    }
  }

  function Cut(s: string): string {
    if |s| <= 500 then s else s[..500]
  }

  /** The first 500 characters. */
  predicate CutTo(kept: Option<string>, s: string) {
    kept.Some? && |kept.value| == Min(500, |s|) && forall k | 0 <= k < |kept.value| :: kept.value[k] == s[k]
  }

  /** Step 3 of mint on one row. */
  function Reconciled(suffix: string, results: seq<OpResult>): Record {
    var r := ResultOf(results, suffix);
    if r.Some? && r.value.ok then Record(suffix, MINTED, None)
    else Record(suffix, FAILED, Some(Cut(if r.Some? && r.value.message != "" then r.value.message else "no result")))
  }

  /** The rows after a mint whose batch came to `outcome`. */
  function Minted(suffixes: seq<string>, outcome: Outcome, err: string): seq<Record> {
    seq(|suffixes|, i requires 0 <= i < |suffixes| =>
      match outcome
      case Resolved(results, _) => Reconciled(suffixes[i], results)
      case _ => Record(suffixes[i], FAILED, Some(Cut(err))))
  }

  /** mint, once its entries are prepared; the batch settles one way or the other. */
  method Mint(suffixes: seq<string>, outcome: Outcome, err: string) returns (rows: seq<Record>, thrown: bool)
    requires !outcome.Pending?
    ensures rows == Minted(suffixes, outcome, err) && (thrown <==> outcome.Rejected?)
    ensures |rows| == |suffixes| && forall i | 0 <= i < |rows| :: rows[i].suffix == suffixes[i] && !rows[i].status.PENDING?
    ensures outcome.Rejected? ==> forall i | 0 <= i < |rows| :: rows[i].status == FAILED && CutTo(rows[i].message, err)
    ensures outcome.Resolved? ==> forall i | 0 <= i < |rows| :: var r := ResultOf(outcome.results, suffixes[i]);
      if r.Some? && r.value.ok then rows[i].status == MINTED && rows[i].message == None
      else rows[i].status == FAILED
           && CutTo(rows[i].message, if r.Some? && r.value.message != "" then r.value.message else "no result")
  {
    rows := [];
    for i := 0 to |suffixes|
      invariant |rows| == i && forall j | 0 <= j < i :: rows[j].suffix == suffixes[j]
    {
      rows := rows + [Record(suffixes[i], PENDING, None)];
    }
    if outcome.Rejected? {
      rows := seq(|rows|, i requires 0 <= i < |rows| => rows[i].(status := FAILED, message := Some(Cut(err))));
      return rows, true;
    }
    var bySuffix := IndexResults(outcome.results);
    for i := 0 to |suffixes|
      invariant |rows| == |suffixes|
      invariant forall j | 0 <= j < i :: rows[j] == Reconciled(suffixes[j], outcome.results)
    {
      var s := suffixes[i];
      var ok := s in bySuffix && bySuffix[s].ok;
      var message := if s in bySuffix && bySuffix[s].message != "" then bySuffix[s].message else "no result";
      rows := rows[i := Record(s, if ok then MINTED else FAILED, if ok then None else Some(Cut(message)))];
    }
    thrown := false;
  }

  method IndexResults(results: seq<OpResult>) returns (m: map<string, OpResult>)
    ensures forall s :: (if s in m then Some(m[s]) else None) == ResultOf(results, s)
  {
    m := map[];
    var i := 0;
    while i < |results|
      invariant 0 <= i <= |results|
      invariant forall s :: (if s in m then Some(m[s]) else None) == ResultOf(results[..i], s)
    {
      assert results[..i + 1][..i] == results[..i];
      m := m[results[i].suffix := results[i]];
      i := i + 1;
    }
    assert results[..i] == results;
  }

  // --- what the statuses say about the handles ------------------------------------------------------

  /** The create operations of one mint. */
  function Creates(suffixes: seq<string>, urls: seq<string>): (ops: seq<Entry>)
    requires |urls| == |suffixes|
    ensures |ops| == |suffixes|
  {
    seq(|suffixes|, i requires 0 <= i < |suffixes| => Entry("create", suffixes[i], urls[i]))
  }

  /** The handle server created the handle: the helper got as far as its create operation, and the
      operation came back ok from execute. */
  predicate Created(suffixes: seq<string>, urls: seq<string>, exec: Exec, ran: nat, i: nat)
    requires |urls| == |suffixes| && i < |suffixes|
  {
    i < ran && exec(i, Entry("create", suffixes[i], urls[i])).0
  }

  lemma {:induction false} ResultIs(results: seq<OpResult>, i: nat)
    requires i < |results| && forall j, k | 0 <= j < k < |results| :: results[j].suffix != results[k].suffix
    ensures ResultOf(results, results[i].suffix) == Some(results[i])
    decreases |results|
  {
    if i < |results| - 1 { ResultIs(results[..|results| - 1], i); }
  }

  /** RECONCILIATION. When the helper runs to its end, a row is minted exactly when its handle was
      created, in whatever chunks the answer arrived. */
  lemma MintedIffCreated(header: string, suffixes: seq<string>, urls: seq<string>, c: Codec, exec: Exec,
                         chunks: seq<string>, err: string, i: nat)
    requires Faithful(c) && Clean(header) && |urls| == |suffixes| && i < |suffixes|
    requires forall j, k | 0 <= j < k < |suffixes| :: suffixes[j] != suffixes[k]
    requires Joined(chunks) == Rendered(HelperLines(Meaningful(Split(Request(header, Creates(suffixes, urls), c))), None, c, exec))
    ensures Minted(suffixes, Verdict(Closed(Fed(chunks, c.dec), c.dec)), err)[i].status ==
            if Created(suffixes, urls, exec, |suffixes|, i) then MINTED else FAILED
  {
    var ops := Creates(suffixes, urls);
    BatchAnswersEach(header, ops, c, exec, chunks);
    var o := Verdict(Closed(Fed(chunks, c.dec), c.dec));
    assert forall k | 0 <= k < |ops| :: o.results[k].suffix == suffixes[k];
    ResultIs(o.results, i);
  }

  lemma {:induction false} NoResult(results: seq<OpResult>, suffix: string)
    requires forall k | 0 <= k < |results| :: results[k].suffix != suffix
    ensures ResultOf(results, suffix).None?
    decreases |results|
  {
    if results != [] { NoResult(results[..|results| - 1], suffix); }
  }

  /** The results that reached the reconciliation. */
  function Received(o: Outcome): nat {
    if o.Resolved? then |o.results| else 0
  }

  /** The row's status says whether its handle exists. */
  predicate Tells(rows: seq<Record>, suffixes: seq<string>, urls: seq<string>, exec: Exec, ran: nat, i: nat)
    requires |rows| == |urls| == |suffixes| && i < |suffixes|
  {
    rows[i].status == MINTED <==> Created(suffixes, urls, exec, ran, i)
  }

  lemma PrefixTells(suffixes: seq<string>, urls: seq<string>, exec: Exec, o: Outcome, ran: nat, err: string, i: nat)
    requires |urls| == |suffixes| && i < |suffixes| && ran <= |suffixes|
    requires forall j, k | 0 <= j < k < |suffixes| :: suffixes[j] != suffixes[k]
    requires AnswersPrefix(o, ran, Creates(suffixes, urls), exec)
    ensures o.Resolved? && ResultOf(o.results, suffixes[i]).Some? <==> i < Received(o)
    ensures Tells(Minted(suffixes, o, err), suffixes, urls, exec, ran, i)
            <==> i < Received(o) || !Created(suffixes, urls, exec, ran, i)
    ensures o.Resolved? && o.summary.Some? ==> Tells(Minted(suffixes, o, err), suffixes, urls, exec, ran, i)
    ensures Minted(suffixes, o, err)[i].status == MINTED ==> Created(suffixes, urls, exec, ran, i)
  {
    if o.Resolved? {
      assert forall k | 0 <= k < |o.results| :: o.results[k].suffix == suffixes[k];
      if i < |o.results| { ResultIs(o.results, i); } else { NoResult(o.results, suffixes[i]); }
    }
  }

  /** The outcome of a batch whose helper executed `ran` operations: it went quiet (or never
      started), or what arrived of its output was read to the close. */
  function OutcomeOf(quiet: bool, chunks: seq<string>, c: Codec): Outcome {
    if quiet then Rejected else Verdict(Closed(Fed(chunks, c.dec), c.dec))
  }

  /** RECONCILIATION, whatever becomes of the helper: it is killed for going quiet, its key does not
      load, or it dies at any point with any part of its output delivered in any chunks. MINTED is
      never wrong, and FAILED is wrong exactly for the handles created beyond the results that
      arrived; a summary, which mint does not look at, would vouch for every row. */
  lemma StatusTellsIff(header: string, suffixes: seq<string>, urls: seq<string>, keyError: Option<string>, c: Codec,
                       exec: Exec, ran: nat, n: nat, quiet: bool, chunks: seq<string>, err: string, i: nat)
    requires Faithful(c) && CutsAreGarbage(c) && Clean(header) && |urls| == |suffixes| && i < |suffixes| && ran <= |suffixes|
    requires forall j, k | 0 <= j < k < |suffixes| :: suffixes[j] != suffixes[k]
    requires Joined(chunks) ==
      Arrived(Rendered(LinesAfter(ran, Meaningful(Split(Request(header, Creates(suffixes, urls), c))), keyError, c, exec)), n)
    ensures var o := OutcomeOf(quiet, chunks, c);
      var rows := Minted(suffixes, o, err);
      && (Tells(rows, suffixes, urls, exec, ran, i) <==> i < Received(o) || !Created(suffixes, urls, exec, ran, i))
      && (o.Resolved? && ResultOf(o.results, suffixes[i]).Some? <==> i < Received(o))
      && (rows[i].status == MINTED ==> Created(suffixes, urls, exec, ran, i))
      && (o.Resolved? && o.summary.Some? ==> Tells(rows, suffixes, urls, exec, ran, i))
      && (quiet ==> rows[i].status == FAILED && CutTo(rows[i].message, err))
      && (rows[i].status == MINTED ==> !quiet && i < ran)
  {
    AnyPrefixAnswersInOrder(header, Creates(suffixes, urls), keyError, c, exec, ran, n, chunks);
    PrefixTells(suffixes, urls, exec, OutcomeOf(quiet, chunks, c), ran, err, i);
  }

  /** The helper dies after n of its results have arrived, with more operations executed: the batch
      resolves all the same, and a handle beyond the n is FAILED although it was created. */
  lemma CutBatchHidesHandles(header: string, suffixes: seq<string>, urls: seq<string>, c: Codec, exec: Exec,
                             n: nat, ran: nat, err: string, i: nat)
    requires Faithful(c) && CutsAreGarbage(c) && Clean(header) && |urls| == |suffixes|
    requires 0 < n <= i < ran < |suffixes| && Created(suffixes, urls, exec, ran, i)
    requires forall j, k | 0 <= j < k < |suffixes| :: suffixes[j] != suffixes[k]
    ensures var entries := EntryLines(Creates(suffixes, urls), c);
      var out := Rendered(Encoded(Results(entries, c, exec)[..n], c));
      var o := OutcomeOf(false, [out], c);
      && out == Arrived(Rendered(LinesAfter(ran, Meaningful(Split(Request(header, Creates(suffixes, urls), c))), None, c, exec)), |out|)
      && o.Resolved? && Minted(suffixes, o, err)[i].status == FAILED
  {
    var ops := Creates(suffixes, urls);
    var entries := EntryLines(ops, c);
    var rs := Results(entries, c, exec);
    var out := Rendered(Encoded(rs[..n], c));
    RequestReadBack(header, ops, c, exec);
    assert ([header] + entries)[1..] == entries;
    EncodedPrefix(rs[..ran], n, c);
    assert rs[..ran][..n] == rs[..n];
    assert Joined([out]) == out by { assert Front([out]) == [] && Joined([]) + out == out; }
    ChunksDoNotMatter([out], c.dec);
    ReadBack(rs[..n], c);
    SplitRendered(Encoded(rs[..n], c));
    ConsumeSnoc(NOTHING, Encoded(rs[..n], c), "", c.dec);
    PrefixAnswers(ops, c, exec, ran, n, None);
    PrefixTells(suffixes, urls, exec, OutcomeOf(false, [out], c), ran, err, i);
  }

  lemma {:induction false} EncodedPrefix(rs: seq<OpResult>, n: nat, c: Codec)
    requires n <= |rs|
    ensures var out := Rendered(Encoded(rs[..n], c)); out == Arrived(Rendered(Encoded(rs, c)), |out|)
    decreases |rs|
  {
    if n < |rs| {
      var init := rs[..|rs| - 1];
      EncodedPrefix(init, n, c);
      assert init[..n] == rs[..n];
      RenderedSnoc(Encoded(init, c), c.enc(Res(rs[|rs| - 1])));
      ArrivedSum(Rendered(Encoded(init, c)), c.enc(Res(rs[|rs| - 1])) + "\n", |Rendered(Encoded(rs[..n], c))|);
    } else {
      assert rs[..n] == rs;
    }
  }

  // --- remove --------------------------------------------------------------------------------------------

  /** The helper's answer to a delete: it threw, or an HTTP-like status. */
  datatype Deletion = Threw(err: string) | Answered(status: int, message: string)

  datatype Removal = Removed | AlreadyDeleted | InUse | Refused | Unreachable

  /** remove: the row is parked in DELETING while the helper runs, and goes back to the status it
      was read with unless the handle is gone. */
  method Remove(row: Record, linked: bool, answer: Deletion) returns (after: Record, r: Removal)
    ensures r.Removed? <==> row.status != DELETED && !linked && answer.Answered? && (answer.status == 200 || answer.status == 404)
    ensures after.status == (if r.Removed? then DELETED else row.status)
    ensures r.AlreadyDeleted? || r.InUse? ==> after == row
    ensures linked ==> !r.Removed?
    ensures r.AlreadyDeleted? <==> row.status == DELETED
    ensures r.InUse? <==> row.status != DELETED && linked
    ensures r.Unreachable? <==> row.status != DELETED && !linked && answer.Threw?
    ensures after.suffix == row.suffix
    ensures r.Unreachable? ==> CutTo(after.message, answer.err)
    ensures r.Refused? ==> answer.Answered? && CutTo(after.message, answer.message)
    ensures r.Removed? ==> after.message == None
  {
    after := row;
    if row.status == DELETED { return after, AlreadyDeleted; }
    if linked { return after, InUse; }
    after := after.(status := DELETING);
    match answer
    case Threw(err) =>
      after := after.(status := row.status, message := Some(Cut(err)));
      r := Unreachable;
    case Answered(status, message) =>
      var gone := status == 200 || status == 404;
      if !gone {
        after := after.(status := row.status, message := Some(Cut(message)));
        return after, Refused;
      }
      after := after.(status := DELETED, message := None);
      r := Removed;
  }
}
