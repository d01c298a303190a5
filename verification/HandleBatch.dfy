/** The batch protocol between the handle writer and its Java helper: newline-separated messages
    that arrive in arbitrary chunks, one result for each operation and a summary. */
module HandleBatch {
  import opened Basics
  import opened TextUtil

  datatype Entry = Entry(op: string, suffix: string, url: string)

  datatype OpResult = OpResult(suffix: string, op: string, ok: bool, message: string)

  datatype Summary = Summary(total: nat, succeeded: nat, failed: nat)

  /** One line of the helper's output. */
  datatype Message = Garbage | Fatal(message: string) | Sum(summary: Summary) | Res(result: OpResult)

  // --- lines -----------------------------------------------------------------------------------

  /** split('\n') */
  function Split(s: string): (pieces: seq<string>)
    ensures |pieces| >= 1
  {
    if s == "" then [""] else Extended(Split(s[..|s| - 1]), s[|s| - 1])
  }

  /** The pieces after one more character. */
  function Extended(pieces: seq<string>, c: char): (longer: seq<string>)
    requires |pieces| >= 1
    ensures |longer| >= 1
  {
    if c == '\n' then pieces + [""] else Front(pieces) + [Last(pieces) + [c]]
  }

  function Front(pieces: seq<string>): seq<string>
    requires |pieces| >= 1
  {
    pieces[..|pieces| - 1]
  }

  function Last(pieces: seq<string>): string
    requires |pieces| >= 1
  {
    pieces[|pieces| - 1]
  }

  lemma {:induction false} SplitWhole(s: string)
    requires '\n' !in s
    ensures Split(s) == [s]
  {
    if s != "" {
      SplitWhole(s[..|s| - 1]);
      assert s == s[..|s| - 1] + [s[|s| - 1]];
    }
  }

  lemma LastExtended(pieces: seq<string>, c: char)
    requires |pieces| >= 1
    ensures Last(Extended(pieces, c)) == if c == '\n' then "" else Last(pieces) + [c]
  {
  }

  lemma {:induction false} LastHasNoNewline(s: string)
    ensures '\n' !in Last(Split(s))
  {
    if s != "" {
      var init, c := s[..|s| - 1], s[|s| - 1];
      LastHasNoNewline(init);
      LastExtended(Split(init), c);
    }
  }

  /** Splitting what was left over together with the next chunk continues the split of the whole. */
  lemma {:induction false} SplitAppend(a: string, b: string)
    ensures Split(a + b) == Front(Split(a)) + Split(Last(Split(a)) + b)
    decreases |b|
  {
    var rest := Last(Split(a));
    if b == "" {
      LastHasNoNewline(a);
      SplitWhole(rest);
      assert a + b == a && rest + b == rest;
    } else {
      SplitAppend(a, b[..|b| - 1]);
      SplitAppendSnoc(a, b[..|b| - 1], b[|b| - 1]);
      assert b == b[..|b| - 1] + [b[|b| - 1]];
    }
  }

  lemma {:induction false} SplitAppendSnoc(a: string, b: string, c: char)
    requires Split(a + b) == Front(Split(a)) + Split(Last(Split(a)) + b)
    ensures Split(a + (b + [c])) == Front(Split(a)) + Split(Last(Split(a)) + (b + [c]))
  {
    var rest := Last(Split(a));
    assert a + (b + [c]) == (a + b) + [c] && rest + (b + [c]) == (rest + b) + [c];
    SplitSnoc(a + b, c);
    SplitSnoc(rest + b, c);
    ExtendTail(Front(Split(a)), Split(rest + b), c);
  }

  lemma SplitSnoc(s: string, c: char)
    ensures Split(s + [c]) == Extended(Split(s), c)
  {
    assert (s + [c])[..|s|] == s;
  }

  lemma ExtendTail(front: seq<string>, pieces: seq<string>, c: char)
    requires |pieces| >= 1
    ensures Extended(front + pieces, c) == front + Extended(pieces, c)
  {
    assert Front(front + pieces) == front + Front(pieces);
  }

  // --- the reading side ---------------------------------------------------------------------------

  datatype Seen = Seen(results: seq<OpResult>, summary: Option<Summary>, fatal: Option<string>)

  /** consume */
  function Consume(seen: Seen, line: string, parse: string -> Message): Seen {
    var text := Trim(line);
    if text == "" then seen
    else match parse(text)
      case Garbage => seen
      case Fatal(m) => seen.(fatal := Some(m))
      case Sum(s) => seen.(summary := Some(s))
      case Res(r) => seen.(results := seen.results + [r])
  }

  function ConsumeAll(seen: Seen, lines: seq<string>, parse: string -> Message): Seen
    decreases |lines|
  {
    if lines == [] then seen else Consume(ConsumeAll(seen, Front(lines), parse), Last(lines), parse)
  }

  lemma {:induction false} ConsumeAppend(seen: Seen, a: seq<string>, b: seq<string>, parse: string -> Message)
    ensures ConsumeAll(seen, a + b, parse) == ConsumeAll(ConsumeAll(seen, a, parse), b, parse)
    decreases |b|
  {
    if b == [] {
      assert a + b == a;
    } else {
      assert Front(a + b) == a + Front(b);
      ConsumeAppend(seen, a, Front(b), parse);
    }
  }

  lemma ConsumeStep(seen: Seen, lines: seq<string>, i: nat, parse: string -> Message)
    requires i < |lines|
    ensures ConsumeAll(seen, lines[..i + 1], parse) == Consume(ConsumeAll(seen, lines[..i], parse), lines[i], parse)
  {
    assert Front(lines[..i + 1]) == lines[..i];
  }

  const NOTHING := Seen([], None, None)

  datatype Reading = Reading(seen: Seen, buffer: string)

  /** The 'data' handler. */
  function OnData(r: Reading, chunk: string, parse: string -> Message): Reading {
    var parts := Split(r.buffer + chunk);
    Reading(ConsumeAll(r.seen, Front(parts), parse), Last(parts))
  }

  function Fed(chunks: seq<string>, parse: string -> Message): Reading {
    if chunks == [] then Reading(NOTHING, "")
    else OnData(Fed(Front(chunks), parse), Last(chunks), parse)
  }

  lemma FedSnoc(chunks: seq<string>, chunk: string, parse: string -> Message)
    ensures Fed(chunks + [chunk], parse) == OnData(Fed(chunks, parse), chunk, parse)
  {
    assert Front(chunks + [chunk]) == chunks;
  }

  /** What 'close' makes of the leftover. */
  function Closed(r: Reading, parse: string -> Message): Seen {
    Consume(r.seen, r.buffer, parse)
  }

  function Joined(chunks: seq<string>): string {
    if chunks == [] then "" else Joined(Front(chunks)) + Last(chunks)
  }

  lemma {:induction false} FedIs(chunks: seq<string>, parse: string -> Message)
    ensures var whole := Split(Joined(chunks));
      Fed(chunks, parse) == Reading(ConsumeAll(NOTHING, Front(whole), parse), Last(whole))
  {
    if chunks != [] {
      var before := Joined(Front(chunks));
      FedIs(Front(chunks), parse);
      SplitAppend(before, Last(chunks));
      var parts := Split(Last(Split(before)) + Last(chunks));
      assert Front(Front(Split(before)) + parts) == Front(Split(before)) + Front(parts);
      ConsumeAppend(NOTHING, Front(Split(before)), Front(parts), parse);
    }
  }

  /** CHUNK INDEPENDENCE. However the output is cut into chunks, what has been consumed by the
      close is the consumption of the whole output's lines, in order. */
  lemma ChunksDoNotMatter(chunks: seq<string>, parse: string -> Message)
    ensures Closed(Fed(chunks, parse), parse) == ConsumeAll(NOTHING, Split(Joined(chunks)), parse)
  {
    FedIs(chunks, parse);
  }

  datatype Outcome = Pending | Resolved(results: seq<OpResult>, summary: Option<Summary>) | Rejected

  function Verdict(seen: Seen): Outcome {
    if seen.fatal.Some? || (seen.summary.None? && seen.results == []) then Rejected
    else Resolved(seen.results, seen.summary)
  }

  /** A fatal line rejects, and so does an output with neither a result nor a summary; anything else
      resolves with what was seen. */
  lemma VerdictIs(seen: Seen)
    ensures Verdict(seen).Rejected? || Verdict(seen).Resolved?
    ensures Verdict(seen).Rejected? <==> seen.fatal.Some? || (seen.summary.None? && |seen.results| == 0)
    ensures Verdict(seen).Resolved? ==> Verdict(seen).results == seen.results && Verdict(seen).summary == seen.summary
  {
  }

  /** The promise around one helper process. */
  class BatchReader {
    const parse: string -> Message
    var buffer: string
    var results: seq<OpResult>
    var summary: Option<Summary>
    var fatal: Option<string>
    var outcome: Outcome
    ghost var chunks: seq<string>

    ghost predicate Valid()
      reads this
    {
      Reading(Seen(results, summary, fatal), buffer) == Fed(chunks, parse)
    }

    constructor (parse: string -> Message)
      ensures Valid() && outcome.Pending? && chunks == [] && this.parse == parse
    {
      this.parse := parse;
      buffer, results, summary, fatal, outcome, chunks := "", [], None, None, Pending, [];
    }

    method ConsumeLine(line: string)
      modifies this`results, this`summary, this`fatal
      ensures Seen(results, summary, fatal) == Consume(old(Seen(results, summary, fatal)), line, parse)
    {
      var text := Trim(line);
      if text == "" { return; }
      match parse(text)
      case Garbage =>
      case Fatal(m) => fatal := Some(m);
      case Sum(s) => summary := Some(s);
      case Res(r) => results := results + [r];
    }

    method Data(chunk: string)
      requires Valid()
      modifies this
      ensures Valid() && chunks == old(chunks) + [chunk] && outcome == old(outcome)
    {
      FedSnoc(chunks, chunk, parse);
      var parts := Split(buffer + chunk);
      buffer := Last(parts);
      var i := 0;
      ghost var start := Seen(results, summary, fatal);
      while i < |parts| - 1
        invariant 0 <= i <= |parts| - 1 && buffer == Last(parts) && outcome == old(outcome) && chunks == old(chunks)
        invariant Seen(results, summary, fatal) == ConsumeAll(start, parts[..i], parse)
      {
        ConsumeStep(start, parts, i, parse);
        ConsumeLine(parts[i]);
        i := i + 1;
      }
      chunks := chunks + [chunk];
    }

    /** The promise settles once: on close, on a spawn error, or when the helper goes quiet. */
    method Close()
      requires Valid()
      modifies this
      ensures old(outcome).Pending? ==> outcome == Verdict(ConsumeAll(NOTHING, Split(Joined(chunks)), parse))
      ensures old(outcome).Pending? ==> var seen := ConsumeAll(NOTHING, Split(Joined(chunks)), parse);
        outcome == if seen.fatal.Some? || (seen.summary.None? && seen.results == []) then Rejected
                   else Resolved(seen.results, seen.summary)
      ensures !old(outcome).Pending? ==> outcome == old(outcome)
      ensures chunks == old(chunks)
    {
      if !outcome.Pending? { return; }
      ChunksDoNotMatter(chunks, parse);
      if Trim(buffer) != "" { ConsumeLine(buffer); }
      if fatal.Some? || (summary.None? && results == []) {
        outcome := Rejected;
      } else {
        outcome := Resolved(results, summary);
      }
    }

    /** The idle timer fires, or the helper cannot be spawned. */
    method GoneQuiet()
      requires Valid()
      modifies this`outcome
      ensures Valid() && chunks == old(chunks)
      ensures outcome == if old(outcome).Pending? then Rejected else old(outcome)
    {
      if outcome.Pending? { outcome := Rejected; }
    }
  }

  // --- the writing side -----------------------------------------------------------------------------

  function Rendered(lines: seq<string>): string {
    if lines == [] then "" else Rendered(Front(lines)) + (Last(lines) + "\n")
  }

  predicate Clean(line: string) {
    line != "" && '\n' !in line && Trim(line) == line
  }

  lemma {:induction false} SplitRendered(lines: seq<string>)
    requires forall l | l in lines :: Clean(l)
    ensures Split(Rendered(lines)) == lines + [""]
  {
    if lines != [] {
      assert Last(lines) in lines;
      SplitRendered(Front(lines));
      SplitLine(Rendered(Front(lines)), Front(lines), Last(lines));
      assert lines == Front(lines) + [Last(lines)];
    }
  }

  lemma SplitOne(l: string)
    requires '\n' !in l
    ensures Split(l + "\n") == [l, ""]
  {
    SplitWhole(l);
    assert l + "\n" == l + ['\n'];
    SplitSnoc(l, '\n');
  }

  lemma SplitLine(s: string, pieces: seq<string>, l: string)
    requires '\n' !in l && Split(s) == pieces + [""]
    ensures Split(s + (l + "\n")) == (pieces + [l]) + [""]
  {
    SplitAppend(s, l + "\n");
    assert "" + (l + "\n") == l + "\n";
    SplitOne(l);
    assert Front(pieces + [""]) == pieces;
    assert pieces + [l, ""] == (pieces + [l]) + [""];
  }

  /** The lines that nextMeaningfulLine returns one after the other. */
  function Meaningful(pieces: seq<string>): seq<string> {
    if pieces == [] then []
    else Meaningful(Front(pieces)) + if Trim(Last(pieces)) == "" then [] else [Trim(Last(pieces))]
  }

  lemma MeaningfulSnoc(pieces: seq<string>, l: string)
    ensures Meaningful(pieces + [l]) == Meaningful(pieces) + if Trim(l) == "" then [] else [Trim(l)]
  {
    assert Front(pieces + [l]) == pieces;
  }

  lemma MeaningfulStep(pieces: seq<string>, l: string)
    requires Meaningful(pieces) == pieces && Clean(l)
    ensures Meaningful(pieces + [l]) == pieces + [l]
  {
    MeaningfulSnoc(pieces, l);
  }

  ghost predicate AllClean(lines: seq<string>) {
    forall i | 0 <= i < |lines| :: Clean(lines[i])
  }

  lemma FrontClean(lines: seq<string>)
    requires AllClean(lines) && lines != []
    ensures AllClean(Front(lines)) && Clean(Last(lines)) && lines == Front(lines) + [Last(lines)]
  {
  }

  lemma {:induction false} MeaningfulOf(lines: seq<string>)
    requires AllClean(lines)
    ensures Meaningful(lines) == lines
  {
    if lines != [] {
      FrontClean(lines);
      MeaningfulOf(Front(lines));
      MeaningfulStep(Front(lines), Last(lines));
    }
  }

  /** JSON in both directions. */
  datatype Codec = Codec(
    enc: Message -> string, dec: string -> Message,
    encEntry: Entry -> string, decEntry: string -> Option<Entry>)

  ghost predicate Faithful(c: Codec) {
    && (forall m :: Clean(c.enc(m)) && c.dec(c.enc(m)) == m)
    && (forall e :: Clean(c.encEntry(e)) && c.decEntry(c.encEntry(e)) == Some(e))
  }

  predicate IsKnownOp(op: string) {
    op == "check" || op == "create" || op == "modify" || op == "delete"
  }

  /** What the k-th execute returns or throws, as (ok, message). */
  type Exec = (nat, Entry) -> (bool, string)

  function ResultFor(k: nat, line: string, c: Codec, exec: Exec): OpResult {
    match c.decEntry(line)
    case None => OpResult("", "", false, "malformed")
    case Some(e) =>
      if IsKnownOp(e.op) then OpResult(e.suffix, e.op, exec(k, e).0, exec(k, e).1)
      else OpResult(e.suffix, e.op, false, "Unknown op: " + e.op)
  }

  /** One entry line's result: an operation succeeds only if it is one of the four and its execution
      does; a line that is no entry, and any other operation, is answered with a refusal. */
  lemma ResultIs(k: nat, line: string, c: Codec, exec: Exec)
    ensures c.decEntry(line).None? ==> ResultFor(k, line, c, exec) == OpResult("", "", false, "malformed")
    ensures c.decEntry(line).Some? ==> var e, r := c.decEntry(line).value, ResultFor(k, line, c, exec);
      && r.suffix == e.suffix && r.op == e.op
      && (r.ok <==> e.op in ["check", "create", "modify", "delete"] && exec(k, e).0)
      && (e.op in ["check", "create", "modify", "delete"] ==> r.message == exec(k, e).1)
      && (e.op !in ["check", "create", "modify", "delete"] ==> r.message == "Unknown op: " + e.op)
  {
  }

  function Results(lines: seq<string>, c: Codec, exec: Exec): (rs: seq<OpResult>)
    ensures |rs| == |lines|
  {
    if lines == [] then [] else Results(Front(lines), c, exec) + [ResultFor(|lines| - 1, Last(lines), c, exec)]
  }

  function Succeeded(rs: seq<OpResult>): (n: nat)
    ensures n <= |rs|
  {
    if rs == [] then 0 else Succeeded(rs[..|rs| - 1]) + if rs[|rs| - 1].ok then 1 else 0
  }

  function Encoded(rs: seq<OpResult>, c: Codec): (lines: seq<string>)
    ensures |lines| == |rs|
  {
    if rs == [] then [] else Encoded(rs[..|rs| - 1], c) + [c.enc(Res(rs[|rs| - 1]))]
  }

  function Tally(rs: seq<OpResult>): Summary {
    Summary(|rs|, Succeeded(rs), |rs| - Succeeded(rs))
  }

  function ReportLines(rs: seq<OpResult>, c: Codec): seq<string> {
    Encoded(rs, c) + [c.enc(Sum(Tally(rs)))]
  }

  /** The helper's output for the lines it was given; keyError is why the key would not load. */
  function HelperLines(lines: seq<string>, keyError: Option<string>, c: Codec, exec: Exec): seq<string> {
    if lines == [] then [c.enc(Res(OpResult("", "", false, "Batch input was empty")))]
    else if keyError.Some? then [c.enc(Fatal(keyError.value))]
    else ReportLines(Results(lines[1..], c, exec), c)
  }

  lemma ResultsStep(entries: seq<string>, k: nat, c: Codec, exec: Exec)
    requires k < |entries|
    ensures Results(entries[..k + 1], c, exec) == Results(entries[..k], c, exec) + [ResultFor(k, entries[k], c, exec)]
  {
    assert Front(entries[..k + 1]) == entries[..k];
  }

  lemma ReportStep(rs: seq<OpResult>, r: OpResult, c: Codec)
    ensures Rendered(Encoded(rs + [r], c)) == Rendered(Encoded(rs, c)) + (c.enc(Res(r)) + "\n")
    ensures Succeeded(rs + [r]) == Succeeded(rs) + if r.ok then 1 else 0
  {
    assert (rs + [r])[..|rs|] == rs;
    RenderedSnoc(Encoded(rs, c), c.enc(Res(r)));
  }

  /** The loop of runBatch over the entry lines. */
  method RunEntries(entries: seq<string>, c: Codec, exec: Exec) returns (output: string, total: nat, succeeded: nat)
    ensures total == |entries| && succeeded == Succeeded(Results(entries, c, exec))
    ensures output == Rendered(Encoded(Results(entries, c, exec), c))
    ensures succeeded == total <==> forall r | r in Results(entries, c, exec) :: r.ok
  {
    total, succeeded, output := 0, 0, "";
    ghost var rs: seq<OpResult> := [];
    while total < |entries|
      invariant 0 <= total <= |entries| && rs == Results(entries[..total], c, exec) && succeeded == Succeeded(rs)
      invariant output == Rendered(Encoded(rs, c))
      invariant succeeded == total <==> forall r | r in rs :: r.ok
    {
      var result := ResultFor(total, entries[total], c, exec);
      ResultsStep(entries, total, c, exec);
      ReportStep(rs, result, c);
      output := output + (c.enc(Res(result)) + "\n");
      rs := rs + [result];
      if result.ok { succeeded := succeeded + 1; }
      total := total + 1;
    }
    assert entries[..total] == entries;
  }

  method RunReport(entries: seq<string>, c: Codec, exec: Exec) returns (output: string, exit: int)
    ensures output == Rendered(ReportLines(Results(entries, c, exec), c))
    ensures exit == 0 || exit == 1
    ensures exit == 0 <==> forall r | r in Results(entries, c, exec) :: r.ok
  {
    var body, total, succeeded := RunEntries(entries, c, exec);
    ghost var rs := Results(entries, c, exec);
    var tally := Summary(total, succeeded, total - succeeded);
    assert tally == Tally(rs);
    RenderedSnoc(Encoded(rs, c), c.enc(Sum(tally)));
    output := body + (c.enc(Sum(tally)) + "\n");
    exit := if succeeded == total then 0 else 1;
  }

  /** runBatch. */
  method RunBatch(input: string, keyError: Option<string>, c: Codec, exec: Exec) returns (output: string, exit: int)
    ensures output == Rendered(HelperLines(Meaningful(Split(input)), keyError, c, exec))
    ensures exit == 0 || exit == 1
    ensures Meaningful(Split(input)) == [] ==> output == c.enc(Res(OpResult("", "", false, "Batch input was empty"))) + "\n"
    ensures Meaningful(Split(input)) != [] && keyError.Some? ==> output == c.enc(Fatal(keyError.value)) + "\n"
    ensures exit == 0 <==>
      Meaningful(Split(input)) != [] && keyError.None? &&
      forall r | r in Results(Meaningful(Split(input))[1..], c, exec) :: r.ok
  {
    var lines := Meaningful(Split(input));
    if lines == [] {
      var line := c.enc(Res(OpResult("", "", false, "Batch input was empty")));
      RenderedOne(line);
      return line + "\n", 1;
    }
    if keyError.Some? {
      var line := c.enc(Fatal(keyError.value));
      RenderedOne(line);
      return line + "\n", 1;
    }
    output, exit := RunReport(lines[1..], c, exec);
  }

  lemma RenderedOne(l: string)
    ensures Rendered([l]) == l + "\n"
  {
    RenderedSnoc([], l);
    assert [] + [l] == [l] && Rendered([]) + (l + "\n") == l + "\n";
  }

  lemma RenderedSnoc(lines: seq<string>, l: string)
    ensures Rendered(lines + [l]) == Rendered(lines) + (l + "\n")
  {
    assert Front(lines + [l]) == lines;
  }

  // --- the two sides together --------------------------------------------------------------------------

  function EntryLines(ops: seq<Entry>, c: Codec): (lines: seq<string>)
    ensures |lines| == |ops|
  {
    if ops == [] then [] else EntryLines(ops[..|ops| - 1], c) + [c.encEntry(ops[|ops| - 1])]
  }

  /** What batch() writes to the helper's standard input. */
  function Request(header: string, ops: seq<Entry>, c: Codec): string {
    Rendered([header] + EntryLines(ops, c))
  }

  lemma {:induction false} EntryLinesClean(ops: seq<Entry>, c: Codec, exec: Exec)
    requires Faithful(c)
    ensures forall l | l in EntryLines(ops, c) :: Clean(l)
    ensures forall i | 0 <= i < |ops| :: var r := Results(EntryLines(ops, c), c, exec)[i];
      r.suffix == ops[i].suffix && r.op == ops[i].op && (r.ok ==> IsKnownOp(ops[i].op) && exec(i, ops[i]).0)
      && (IsKnownOp(ops[i].op) && exec(i, ops[i]).0 ==> r.ok)
  {
    if ops != [] { EntryLinesClean(ops[..|ops| - 1], c, exec); }
  }

  lemma ConsumeSnoc(seen: Seen, lines: seq<string>, l: string, parse: string -> Message)
    ensures ConsumeAll(seen, lines + [l], parse) == Consume(ConsumeAll(seen, lines, parse), l, parse)
  {
    assert Front(lines + [l]) == lines;
  }

  lemma {:induction false} ReadBack(rs: seq<OpResult>, c: Codec)
    requires Faithful(c)
    ensures forall l | l in Encoded(rs, c) :: Clean(l)
    ensures ConsumeAll(NOTHING, Encoded(rs, c), c.dec) == Seen(rs, None, None)
  {
    if rs != [] {
      var init, last := rs[..|rs| - 1], rs[|rs| - 1];
      ReadBack(init, c);
      ConsumeSnoc(NOTHING, Encoded(init, c), c.enc(Res(last)), c.dec);
    }
  }

  lemma RequestReadBack(header: string, ops: seq<Entry>, c: Codec, exec: Exec)
    requires Faithful(c) && Clean(header)
    ensures Meaningful(Split(Request(header, ops, c))) == [header] + EntryLines(ops, c)
  {
    EntryLinesClean(ops, c, exec);
    var sent := [header] + EntryLines(ops, c);
    assert forall i | 0 <= i < |sent| :: sent[i] in sent;
    SplitRendered(sent);
    MeaningfulOf(sent);
    MeaningfulSnoc(sent, "");
    assert Trim("") == "";
  }

  /** A run's results and summary, read back from their lines. */
  lemma OutputReadBack(rs: seq<OpResult>, c: Codec)
    requires Faithful(c)
    ensures ConsumeAll(NOTHING, Split(Rendered(ReportLines(rs, c))), c.dec) == Seen(rs, Some(Tally(rs)), None)
  {
    var last := c.enc(Sum(Tally(rs)));
    ReadBack(rs, c);
    SplitRendered(ReportLines(rs, c));
    ConsumeSnoc(NOTHING, ReportLines(rs, c), "", c.dec);
    ConsumeSnoc(NOTHING, Encoded(rs, c), last, c.dec);
  }

  /** Every operation has its result, in order, and the summary adds up. */
  ghost predicate AnswersEach(o: Outcome, ops: seq<Entry>, exec: Exec) {
    && o.Resolved? && |o.results| == |ops|
    && (forall i | 0 <= i < |ops| ::
         o.results[i].suffix == ops[i].suffix && o.results[i].op == ops[i].op
         && (o.results[i].ok <==> IsKnownOp(ops[i].op) && exec(i, ops[i]).0))
    && o.summary == Some(Summary(|ops|, Succeeded(o.results), |ops| - Succeeded(o.results)))
  }

  lemma ReportAnswersEach(ops: seq<Entry>, c: Codec, exec: Exec)
    requires Faithful(c)
    ensures var rs := Results(EntryLines(ops, c), c, exec); AnswersEach(Verdict(Seen(rs, Some(Tally(rs)), None)), ops, exec)
  {
    EntryLinesClean(ops, c, exec);
  }

  /** ONE RESULT PER OPERATION. Whatever the operations, whatever each of them comes to, and
      however the helper's output is cut into chunks: once the key has loaded and the helper has
      run to its end, the promise resolves with one result for each operation, in order, and
      with a summary whose total is the number of operations and the sum of its two counts. */
  lemma BatchAnswersEach(header: string, ops: seq<Entry>, c: Codec, exec: Exec, chunks: seq<string>)
    requires Faithful(c) && Clean(header)
    requires Joined(chunks) == Rendered(HelperLines(Meaningful(Split(Request(header, ops, c))), None, c, exec))
    ensures AnswersEach(Verdict(Closed(Fed(chunks, c.dec), c.dec)), ops, exec)
  {
    var entries := EntryLines(ops, c);
    RequestReadBack(header, ops, c, exec);
    assert ([header] + entries)[1..] == entries;
    OutputReadBack(Results(entries, c, exec), c);
    ChunksDoNotMatter(chunks, c.dec);
    ReportAnswersEach(ops, c, exec);
  }
}
