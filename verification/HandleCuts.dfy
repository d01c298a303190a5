/** What the handle writer makes of a helper that dies midway: its output cut at any character. */
module HandleCuts {
  import opened Basics
  import opened HandleBatch
  import opened TextUtil

  /** No strict prefix of a JSON object is JSON: what is left of a line cut short is not read. */
  ghost predicate CutsAreGarbage(c: Codec) {
    forall m, k: nat | k < |c.enc(m)| :: Trim(c.enc(m)[..k]) == "" || c.dec(Trim(c.enc(m)[..k])) == Garbage
  }

  function EncodedAll(ms: seq<Message>, c: Codec): (lines: seq<string>)
    ensures |lines| == |ms|
  {
    if ms == [] then [] else EncodedAll(ms[..|ms| - 1], c) + [c.enc(ms[|ms| - 1])]
  }

  lemma {:induction false} EncodedAllClean(ms: seq<Message>, c: Codec)
    requires Faithful(c)
    ensures forall l | l in EncodedAll(ms, c) :: Clean(l)
  {
    if ms != [] { EncodedAllClean(ms[..|ms| - 1], c); }
  }

  /** What whole lines hold, then what is left of the next one. */
  lemma CutLine(ms: seq<Message>, m: Message, k: nat, c: Codec)
    requires Faithful(c) && CutsAreGarbage(c) && k <= |c.enc(m)|
    ensures ConsumeAll(NOTHING, Split(Rendered(EncodedAll(ms, c)) + c.enc(m)[..k]), c.dec)
            == ConsumeAll(NOTHING, if k < |c.enc(m)| then EncodedAll(ms, c) else EncodedAll(ms, c) + [c.enc(m)], c.dec)
  {
    var lines, rest := EncodedAll(ms, c), c.enc(m)[..k];
    EncodedAllClean(ms, c);
    SplitRendered(lines);
    SplitAppend(Rendered(lines), rest);
    assert Clean(c.enc(m)) && Front(lines + [""]) == lines && "" + rest == rest;
    SplitWhole(rest);
    ConsumeSnoc(NOTHING, lines, rest, c.dec);
    if k == |c.enc(m)| { assert rest == c.enc(m); }
  }

  lemma WholeConsumes(ms: seq<Message>, c: Codec)
    requires Faithful(c)
    ensures ConsumeAll(NOTHING, Split(Rendered(EncodedAll(ms, c))), c.dec) == ConsumeAll(NOTHING, EncodedAll(ms, c), c.dec)
  {
    EncodedAllClean(ms, c);
    SplitRendered(EncodedAll(ms, c));
    ConsumeSnoc(NOTHING, EncodedAll(ms, c), "", c.dec);
  }

  /** The first n characters of an output. */
  function Arrived(s: string, n: nat): string {
    if n < |s| then s[..n] else s
  }

  lemma ArrivedSum(head: string, tail: string, n: nat)
    ensures Arrived(head + tail, n) == if n < |head| then Arrived(head, n) else head + Arrived(tail, n - |head|)
  {
  }

  lemma CutLastLine(ms: seq<Message>, m: Message, k: nat, c: Codec)
    requires Faithful(c) && CutsAreGarbage(c)
    ensures ConsumeAll(NOTHING, Split(Rendered(EncodedAll(ms, c)) + Arrived(c.enc(m) + "\n", k)), c.dec)
            == ConsumeAll(NOTHING, if k < |c.enc(m)| then EncodedAll(ms, c) else EncodedAll(ms, c) + [c.enc(m)], c.dec)
  {
    var line := c.enc(m);
    if k <= |line| {
      assert Arrived(line + "\n", k) == line[..k];
      CutLine(ms, m, k, c);
    } else {
      assert (ms + [m])[..|ms|] == ms;
      RenderedSnoc(EncodedAll(ms, c), line);
      WholeConsumes(ms + [m], c);
    }
  }

  /** Output cut anywhere: what is consumed is what some number of whole lines hold. */
  lemma {:induction false} CutConsumes(ms: seq<Message>, n: nat, c: Codec) returns (j: nat)
    requires Faithful(c) && CutsAreGarbage(c)
    ensures j <= |ms|
    ensures ConsumeAll(NOTHING, Split(Arrived(Rendered(EncodedAll(ms, c)), n)), c.dec)
            == ConsumeAll(NOTHING, EncodedAll(ms[..j], c), c.dec)
  {
    if ms == [] {
      WholeConsumes([], c);
      j := 0;
    } else {
      var init, m := ms[..|ms| - 1], ms[|ms| - 1];
      var head := Rendered(EncodedAll(init, c));
      SplitLast(init, m, n, c);
      assert ms == init + [m];
      if n < |head| {
        j := CutConsumes(init, n, c);
        assert init[..j] == ms[..j];
      } else {
        CutLastLine(init, m, n - |head|, c);
        j := if n - |head| < |c.enc(m)| then |ms| - 1 else |ms|;
        assert ms[..|ms|] == ms;
      }
    }
  }

  lemma SplitLast(init: seq<Message>, m: Message, n: nat, c: Codec)
    ensures EncodedAll(init + [m], c) == EncodedAll(init, c) + [c.enc(m)]
    ensures var head := Rendered(EncodedAll(init, c));
      Arrived(Rendered(EncodedAll(init + [m], c)), n)
      == if n < |head| then Arrived(head, n) else head + Arrived(c.enc(m) + "\n", n - |head|)
  {
    assert (init + [m])[..|init|] == init;
    RenderedSnoc(EncodedAll(init, c), c.enc(m));
    ArrivedSum(Rendered(EncodedAll(init, c)), c.enc(m) + "\n", n);
  }

  /** The lines printed by the time `ran` operations have been executed. */
  function LinesAfter(ran: nat, lines: seq<string>, keyError: Option<string>, c: Codec, exec: Exec): seq<string> {
    if lines != [] && keyError.None? && ran < |lines| - 1
    then Encoded(Results(lines[1..], c, exec)[..ran], c)
    else HelperLines(lines, keyError, c, exec)
  }

  function MessagesOf(rs: seq<OpResult>): (ms: seq<Message>)
    ensures |ms| == |rs| && forall i | 0 <= i < |rs| :: ms[i] == Res(rs[i])
  {
    seq(|rs|, i requires 0 <= i < |rs| => Res(rs[i]))
  }

  lemma {:induction false} EncodedIs(rs: seq<OpResult>, c: Codec)
    ensures Encoded(rs, c) == EncodedAll(MessagesOf(rs), c)
  {
    if rs != [] {
      EncodedIs(rs[..|rs| - 1], c);
      assert MessagesOf(rs)[..|rs| - 1] == MessagesOf(rs[..|rs| - 1]);
    }
  }

  /** Results cut anywhere are read as a prefix of the results. */
  lemma CutResults(rs: seq<OpResult>, n: nat, c: Codec) returns (j: nat)
    requires Faithful(c) && CutsAreGarbage(c)
    ensures j <= |rs| && ConsumeAll(NOTHING, Split(Arrived(Rendered(Encoded(rs, c)), n)), c.dec) == Seen(rs[..j], None, None)
  {
    EncodedIs(rs, c);
    j := CutConsumes(MessagesOf(rs), n, c);
    assert MessagesOf(rs)[..j] == MessagesOf(rs[..j]);
    EncodedIs(rs[..j], c);
    ReadBack(rs[..j], c);
  }

  /** A whole report cut anywhere: a prefix of the results, and the summary only with all of them. */
  lemma CutReport(rs: seq<OpResult>, n: nat, c: Codec) returns (j: nat, summary: Option<Summary>)
    requires Faithful(c) && CutsAreGarbage(c)
    ensures j <= |rs|
    ensures ConsumeAll(NOTHING, Split(Arrived(Rendered(ReportLines(rs, c)), n)), c.dec) == Seen(rs[..j], summary, None)
    ensures summary.Some? ==> j == |rs| && summary.value == Tally(rs)
  {
    var sum := Sum(Tally(rs));
    var ms := MessagesOf(rs) + [sum];
    EncodedIs(rs, c);
    SplitLast(MessagesOf(rs), sum, n, c);
    j := CutConsumes(ms, n, c);
    if j <= |rs| {
      ReadFirst(rs, j, ms, c);
      summary := None;
    } else {
      assert ms[..j] == ms && rs[..|rs|] == rs;
      ReadBack(rs, c);
      ConsumeSnoc(NOTHING, Encoded(rs, c), c.enc(sum), c.dec);
      j, summary := |rs|, Some(Tally(rs));
    }
  }

  lemma ReadFirst(rs: seq<OpResult>, j: nat, ms: seq<Message>, c: Codec)
    requires Faithful(c) && j <= |rs| && MessagesOf(rs) <= ms
    ensures ConsumeAll(NOTHING, EncodedAll(ms[..j], c), c.dec) == Seen(rs[..j], None, None)
  {
    assert ms[..j] == MessagesOf(rs[..j]);
    EncodedIs(rs[..j], c);
    ReadBack(rs[..j], c);
  }

  /** What a promise can hold when the helper has executed `ran` of the operations. */
  ghost predicate AnswersPrefix(o: Outcome, ran: nat, ops: seq<Entry>, exec: Exec) {
    o.Rejected?
    || (o.Resolved? && |o.results| <= ran <= |ops|
        && (forall i | 0 <= i < |o.results| ::
             o.results[i].suffix == ops[i].suffix && o.results[i].op == ops[i].op
             && (o.results[i].ok <==> IsKnownOp(ops[i].op) && exec(i, ops[i]).0))
        && (o.summary.Some? ==> |o.results| == |ops|))
  }

  lemma PrefixAnswers(ops: seq<Entry>, c: Codec, exec: Exec, ran: nat, j: nat, summary: Option<Summary>)
    requires Faithful(c) && j <= ran <= |ops| && (summary.Some? ==> j == |ops|)
    ensures AnswersPrefix(Verdict(Seen(Results(EntryLines(ops, c), c, exec)[..j], summary, None)), ran, ops, exec)
  {
    EntryLinesClean(ops, c, exec);
  }

  lemma FatalRead(fatal: Message, c: Codec)
    requires Faithful(c) && fatal.Fatal?
    ensures ConsumeAll(NOTHING, [c.enc(fatal)], c.dec) == NOTHING.(fatal := Some(fatal.message))
  {
    ConsumeSnoc(NOTHING, [], c.enc(fatal), c.dec);
    assert [] + [c.enc(fatal)] == [c.enc(fatal)];
    assert Clean(c.enc(fatal)) && c.dec(c.enc(fatal)) == fatal;
  }

  lemma FatalPrefixRejects(fatal: Message, n: nat, c: Codec)
    requires Faithful(c) && CutsAreGarbage(c) && fatal.Fatal?
    ensures Verdict(ConsumeAll(NOTHING, Split(Arrived(Rendered([c.enc(fatal)]), n)), c.dec)).Rejected?
  {
    assert [fatal][..0] == [] && EncodedAll([], c) == [];
    assert EncodedAll([fatal], c) == [] + [c.enc(fatal)] == [c.enc(fatal)];
    var j := CutConsumes([fatal], n, c);
    if j == 0 {
      assert [fatal][..j] == [];
    } else {
      assert [fatal][..j] == [fatal];
      FatalRead(fatal, c);
    }
  }

  lemma PartAnswers(ops: seq<Entry>, c: Codec, exec: Exec, ran: nat, n: nat)
    requires Faithful(c) && CutsAreGarbage(c) && ran <= |ops|
    ensures var out := Arrived(Rendered(Encoded(Results(EntryLines(ops, c), c, exec)[..ran], c)), n);
      AnswersPrefix(Verdict(ConsumeAll(NOTHING, Split(out), c.dec)), ran, ops, exec)
  {
    var rs := Results(EntryLines(ops, c), c, exec);
    var j := CutResults(rs[..ran], n, c);
    assert rs[..ran][..j] == rs[..j];
    PrefixAnswers(ops, c, exec, ran, j, None);
  }

  lemma ReportAnswers(ops: seq<Entry>, c: Codec, exec: Exec, n: nat)
    requires Faithful(c) && CutsAreGarbage(c)
    ensures var out := Arrived(Rendered(ReportLines(Results(EntryLines(ops, c), c, exec), c)), n);
      AnswersPrefix(Verdict(ConsumeAll(NOTHING, Split(out), c.dec)), |ops|, ops, exec)
  {
    var j, summary := CutReport(Results(EntryLines(ops, c), c, exec), n, c);
    PrefixAnswers(ops, c, exec, |ops|, j, summary);
  }

  /** A HELPER THAT DIES. Whatever part of its output arrives before the close, cut anywhere and in
      any chunks: a promise that resolves holds the results of the first operations, in order and
      never more than were executed, and has a summary only if it holds them all. */
  lemma AnyPrefixAnswersInOrder(header: string, ops: seq<Entry>, keyError: Option<string>, c: Codec, exec: Exec,
                                ran: nat, n: nat, chunks: seq<string>)
    requires Faithful(c) && CutsAreGarbage(c) && Clean(header) && ran <= |ops|
    requires Joined(chunks) == Arrived(Rendered(LinesAfter(ran, Meaningful(Split(Request(header, ops, c))), keyError, c, exec)), n)
    ensures AnswersPrefix(Verdict(Closed(Fed(chunks, c.dec), c.dec)), ran, ops, exec)
  {
    var entries := EntryLines(ops, c);
    RequestReadBack(header, ops, c, exec);
    assert ([header] + entries)[1..] == entries;
    ChunksDoNotMatter(chunks, c.dec);
    if keyError.Some? {
      FatalPrefixRejects(Message.Fatal(keyError.value), n, c);
    } else if ran < |ops| {
      PartAnswers(ops, c, exec, ran, n);
    } else {
      ReportAnswers(ops, c, exec, n);
    }
  }
}
