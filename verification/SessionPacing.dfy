/** The shared ArchivesSpace session: paced fetches, one cached token with one login at a time,
    and the bounded retry of a record fetch. Times are in milliseconds. */
module SessionPacing {
  import opened Basics

  // --- pacing -----------------------------------------------------------------------------------

  /** One paced call: the clock when its turn comes, and how its sleep goes: it wakes `late` after
      the time asked for, or throws. */
  datatype Turn = Turn(interval: int, now: int, late: nat, throws: bool)

  /** The time the call's slot is taken, if it takes one. */
  function Slot(lastAt: int, t: Turn): Option<int> {
    var wait := lastAt + t.interval - t.now;
    if wait <= 0 then Some(t.now)
    else if t.throws then None
    else Some(t.now + wait + t.late)
  }

  class Pacer {
    var lastAt: int

    constructor ()
      ensures lastAt == 0
    {
      lastAt := 0;
    }

    /** _pace. Callers with no interval are not queued at all. */
    method Pace(t: Turn) returns (slot: Option<int>)
      modifies this
      ensures t.interval <= 0 ==> slot == Some(t.now) && lastAt == old(lastAt)
      ensures t.interval > 0 ==>
        && slot == Slot(old(lastAt), t)
        && (slot.Some? ==> lastAt == slot.value >= old(lastAt) + t.interval)
        && (slot.None? ==> lastAt == old(lastAt))
      ensures t.interval > 0 ==>
        slot == if t.now >= old(lastAt) + t.interval then Some(t.now)
                else if t.throws then None else Some(old(lastAt) + t.interval + t.late)
    {
      if t.interval <= 0 { return Some(t.now); }
      var wait := lastAt + t.interval - t.now;
      var at := t.now;
      if wait > 0 {
        if t.throws { return None; }
        at := t.now + wait + t.late;
      }
      lastAt := at;
      return Some(at);
    }
  }

  /** The last slot taken after a series of paced calls, in the order of the chain. */
  function LastSlot(start: int, turns: seq<Turn>): int {
    if turns == [] then start
    else
      var before := LastSlot(start, turns[..|turns| - 1]);
      var slot := Slot(before, turns[|turns| - 1]);
      if slot.Some? then slot.value else before
  }

  /** The intervals of the calls that took a slot. */
  function Spacing(start: int, turns: seq<Turn>): int {
    if turns == [] then 0
    else
      var init, t := turns[..|turns| - 1], turns[|turns| - 1];
      Spacing(start, init) + if Slot(LastSlot(start, init), t).Some? then t.interval else 0
  }

  /** PACING. Whatever the callers' clocks, intervals and sleeps, the slots taken stand at least
      the sum of their intervals apart; a sleep that throws costs the queue nothing. */
  lemma {:induction false} SlotsKeepApart(start: int, turns: seq<Turn>, more: seq<Turn>)
    requires forall i | 0 <= i < |turns + more| :: (turns + more)[i].interval > 0
    ensures LastSlot(start, turns + more) - LastSlot(start, turns)
            >= Spacing(start, turns + more) - Spacing(start, turns) >= 0
    decreases |more|
  {
    if more == [] {
      assert turns + more == turns;
    } else {
      var init, t := more[..|more| - 1], more[|more| - 1];
      assert (turns + more)[..|turns + more| - 1] == turns + init;
      assert (turns + more)[|turns + more| - 1] == t;
      SlotsKeepApart(start, turns, init);
    }
  }

  // --- the token holder -------------------------------------------------------------------------

  /** Waiters are the calls awaiting the login under way; landed are the tokens of logins that have
      ended, in the order in which the calls that awaited them will store them. early counts the
      logins started although one had just succeeded. */
  datatype Holder = Holder(
    token: Option<string>, minting: bool, waiters: nat, landed: seq<string>,
    logins: nat, ended: nat, failures: nat, invalidations: nat, early: nat)

  const FRESH := Holder(None, false, 0, [], 0, 0, 0, 0, 0)

  /** A login that ends is forgotten at once, and each call that awaited it resumes, and stores its
      token, in a turn of its own. */
  datatype Step = Get | LoginOk(token: string) | LoginFailed | Store | Invalidate

  predicate Enabled(h: Holder, s: Step) {
    && (s.LoginOk? || s.LoginFailed? ==> h.minting)
    && (s.Store? ==> h.landed != [])
  }

  function Copies(n: nat, token: string): seq<string> {
    seq(n, i => token)
  }

  function Apply(h: Holder, s: Step): Holder
    requires Enabled(h, s)
  {
    match s
    case Get =>
      if h.token.Some? then h
      else if h.minting then h.(waiters := h.waiters + 1)
      else h.(minting := true, waiters := h.waiters + 1, logins := h.logins + 1,
              early := h.early + if h.landed != [] then 1 else 0)
    case LoginOk(token) =>
      h.(minting := false, waiters := 0, landed := h.landed + Copies(h.waiters, token), ended := h.ended + 1)
    case LoginFailed => h.(minting := false, waiters := 0, ended := h.ended + 1, failures := h.failures + 1)
    case Store => h.(token := Some(h.landed[0]), landed := h.landed[1..])
    case Invalidate => h.(token := None, invalidations := h.invalidations + 1)
  }

  ghost predicate HolderInv(h: Holder) {
    && h.logins == h.ended + (if h.minting then 1 else 0)
    && (h.minting <==> h.waiters > 0)
    && h.logins <= h.invalidations + h.failures + h.early
                   + (if h.token.Some? || h.minting || h.landed != [] then 1 else 0)
  }

  ghost predicate IsRun(hs: seq<Holder>, steps: seq<Step>) {
    && |hs| == |steps| + 1 && hs[0] == FRESH
    && forall k | 0 <= k < |steps| :: Enabled(hs[k], steps[k]) && hs[k + 1] == Apply(hs[k], steps[k])
  }

  /** Get finds neither a token nor a login, although the token of one is about to be stored. */
  predicate InWindow(h: Holder, s: Step) {
    s.Get? && h.token.None? && !h.minting && h.landed != []
  }

  /** ONE LOGIN. However the callers interleave, at most one login is outstanding, and a new one
      starts only for a failed login, an invalidated token, or a call that comes between the end of
      a login and the first store of its token. */
  lemma {:induction false} OneLogin(hs: seq<Holder>, steps: seq<Step>, k: nat)
    requires IsRun(hs, steps) && k < |hs|
    ensures hs[k].ended <= hs[k].logins <= hs[k].ended + 1
    ensures hs[k].logins <= 1 + hs[k].invalidations + hs[k].failures + hs[k].early
    ensures HolderInv(hs[k])
  {
    if k > 0 {
      OneLogin(hs, steps, k - 1);
      assert hs[k - 1 + 1] == Apply(hs[k - 1], steps[k - 1]);
    }
  }

  /** A burst shares one login: without failures, invalidations and calls in that window there is
      never a second. */
  lemma {:induction false} BurstSharesOne(hs: seq<Holder>, steps: seq<Step>, k: nat)
    requires IsRun(hs, steps) && k < |hs|
    requires forall i | 0 <= i < k :: !steps[i].LoginFailed? && !steps[i].Invalidate? && !InWindow(hs[i], steps[i])
    ensures hs[k].failures == hs[k].invalidations == hs[k].early == 0
    ensures hs[k].logins <= 1
  {
    OneLogin(hs, steps, k);
    if k > 0 {
      BurstSharesOne(hs, steps, k - 1);
      assert hs[k - 1 + 1] == Apply(hs[k - 1], steps[k - 1]);
    }
  }

  /** A call that comes in the window starts a second login, although the first one succeeded. */
  lemma WindowStartsAnother(h: Holder, token: string)
    requires HolderInv(h) && h.minting && h.token.None?
    ensures var h1 := Apply(h, LoginOk(token));
      InWindow(h1, Get) && Apply(h1, Get).logins == h.logins + 1 && Apply(h1, Get).failures == h.failures
  {
  }

  /** Of two calls that shared a login, the second may store the token after the first has already
      found it dead and dropped it. */
  lemma LateStoreRevives(h: Holder, token: string)
    requires HolderInv(h) && h.minting && h.waiters >= 2 && h.landed == []
    ensures var h1 := Apply(Apply(Apply(h, LoginOk(token)), Store), Invalidate);
      h1.token.None? && Enabled(h1, Store) && Apply(h1, Store).token == Some(token)
  {
  }

  /** create_holder's closure; the counters of the protocol, and who waits, are ghost. */
  class SessionHolder {
    var token: Option<string>
    var minting: bool
    ghost var waiters: nat
    ghost var landed: seq<string>
    ghost var logins: nat
    ghost var ended: nat
    ghost var failures: nat
    ghost var invalidations: nat
    ghost var early: nat

    ghost function H(): Holder
      reads this
    {
      Holder(token, minting, waiters, landed, logins, ended, failures, invalidations, early)
    }

    constructor ()
      ensures H() == FRESH
    {
      token, minting, waiters, landed := None, false, 0, [];
      logins, ended, failures, invalidations, early := 0, 0, 0, 0, 0;
    }

    /** get, up to its await: the cached token at once, or a wait on the one login under way. */
    method GetToken() returns (cached: Option<string>, started: bool)
      modifies this
      ensures H() == Apply(old(H()), Get)
      ensures cached == old(token) && (started <==> old(token).None? && !old(minting))
      ensures token == old(token) && landed == old(landed) && (minting <==> old(minting) || started)
      ensures waiters == old(waiters) + (if cached.None? then 1 else 0) && logins == old(logins) + (if started then 1 else 0)
      ensures early == old(early) + (if started && landed != [] then 1 else 0)
    {
      cached, started := token, false;
      if token.Some? { return; }
      if !minting {
        minting, started := true, true;
        logins := logins + 1;
        if landed != [] { early := early + 1; }
      }
      waiters := waiters + 1;
    }

    /** The login ends, and is forgotten whichever way it went. */
    method LoginEnded(minted: Option<string>)
      requires minting
      modifies this
      ensures H() == Apply(old(H()), if minted.Some? then LoginOk(minted.value) else LoginFailed)
      ensures !minting && waiters == 0 && token == old(token) && ended == old(ended) + 1
      ensures minted.None? ==> landed == old(landed) && failures == old(failures) + 1
      ensures minted.Some? ==>
        && failures == old(failures) && |landed| == |old(landed)| + old(waiters)
        && forall i | 0 <= i < |landed| :: landed[i] == if i < |old(landed)| then old(landed)[i] else minted.value
    {
      minting := false;
      if minted.Some? { landed := landed + Copies(waiters, minted.value); } else { failures := failures + 1; }
      waiters, ended := 0, ended + 1;
    }

    /** get, after its await. */
    method StoreToken(minted: string)
      requires landed != [] && minted == landed[0]
      modifies this
      ensures H() == Apply(old(H()), Store)
      ensures token == Some(minted) && minting == old(minting) && old(landed) == [minted] + landed
    {
      token := Some(minted);
      landed := landed[1..];
    }

    method InvalidateToken()
      modifies this
      ensures H() == Apply(old(H()), Invalidate)
      ensures token == None && minting == old(minting) && landed == old(landed) && invalidations == old(invalidations) + 1
    {
      token := None;
      invalidations := invalidations + 1;
    }
  }

  // --- the retried fetch ---------------------------------------------------------------------------

  datatype Response = Http(code: int) | Broken

  /** What one attempt meets: its login, its record call, and, after a 401 or 403, a second of each.
      A cached token is a login that goes well. */
  datatype Attempt = Attempt(login: bool, response: Response, relogin: bool, second: Response)

  /** The status an attempt ends with, if it is definitive, and the record calls it made. */
  datatype Ending = Ending(status: Option<int>, calls: nat)

  predicate Burst(code: int) {
    code >= 500 || code == 429
  }

  predicate Unauthorised(code: int) {
    code == 401 || code == 403
  }

  function Judged(r: Response, calls: nat): Ending {
    Ending(if r.Http? && !Burst(r.code) then Some(r.code) else None, calls)
  }

  function EndingOf(a: Attempt): Ending {
    if !a.login then Ending(None, 0)
    else if a.response.Broken? || !Unauthorised(a.response.code) then Judged(a.response, 1)
    else if !a.relogin then Ending(None, 1)
    else Judged(a.second, 2)
  }

  /** A status that ends the fetch: not a server error, and not a refusal for too many calls. */
  predicate Definitive(r: Response) {
    r.Http? && r.code < 500 && r.code != 429
  }

  /** An attempt ends with its response's status, or after a 401 or 403 and a new login with the second
      response's, provided it is definitive. */
  lemma EndingIs(a: Attempt)
    ensures var again := a.response.Http? && (a.response.code == 401 || a.response.code == 403);
      && (!a.login ==> EndingOf(a) == Ending(None, 0))
      && (a.login && again && !a.relogin ==> EndingOf(a) == Ending(None, 1))
      && (a.login && (again ==> a.relogin) ==>
            var r := if again then a.second else a.response;
            && EndingOf(a).calls == (if again then 2 else 1)
            && (EndingOf(a).status.Some? <==> Definitive(r))
            && (Definitive(r) ==> EndingOf(a).status == Some(r.code)))
  {
  }

  /** Math.round */
  function Round(x: real): int {
    (x + 0.5).Floor
  }

  /** The backoff after the k-th attempt, with jitter r. */
  function Delay(base: real, k: nat, r: real): int
    requires k >= 1
  {
    Round(Term(base, k - 1) * (0.5 + r))
  }

  function Slept(base: real, jitter: seq<real>, k: nat): int
    requires k <= |jitter|
  {
    if k == 0 then 0 else Slept(base, jitter, k - 1) + Delay(base, k, jitter[k - 1])
  }

  function Calls(script: seq<Attempt>, k: nat): nat
    requires k <= |script|
  {
    if k == 0 then 0 else Calls(script, k - 1) + EndingOf(script[k - 1]).calls
  }

  lemma {:induction false} CallsBounded(script: seq<Attempt>, k: nat)
    requires k <= |script|
    ensures Calls(script, k) <= 2 * k
  {
    if k > 0 { CallsBounded(script, k - 1); }
  }

  lemma DelayBetween(base: real, k: nat, r: real)
    requires k >= 1 && base >= 0.0 && 0.0 <= r < 1.0
    ensures 0.5 * Term(base, k - 1) - 0.5 <= Delay(base, k, r) as real <= 1.5 * Term(base, k - 1) + 0.5
  {
    var x := Term(base, k - 1);
    TermPositive(base, k - 1);
    Scale(x, 0.5, 0.5 + r);
    Scale(x, 0.5 + r, 1.5);
    RoundNear(x * (0.5 + r));
  }

  lemma RoundNear(y: real)
    ensures y - 0.5 <= Round(y) as real <= y + 0.5
  {
  }

  lemma Scale(x: real, a: real, b: real)
    requires x >= 0.0 && a <= b
    ensures x * a <= x * b
  {
  }

  /** The backoff without its jitter, after the k+1st attempt. */
  function Term(base: real, k: nat): real {
    base * Pow2(k) as real
  }

  lemma TermPositive(base: real, k: nat)
    requires base >= 0.0
    ensures Term(base, k) >= 0.0
  {
    Pow2Grows(k, k);
    Scale(base, 0.0, Pow2(k) as real);
  }

  /** The sum of the first k terms. */
  function Geometric(base: real, k: nat): real {
    if k == 0 then 0.0 else Geometric(base, k - 1) + Term(base, k - 1)
  }

  lemma {:induction false} GeometricIs(base: real, k: nat)
    ensures Geometric(base, k) == base * (Pow2(k) - 1) as real
  {
    if k > 0 {
      GeometricIs(base, k - 1);
      var p, q := (Pow2(k - 1) - 1) as real, Pow2(k - 1) as real;
      assert (Pow2(k) - 1) as real == p + q;
      assert base * (p + q) == base * p + base * q;
    }
  }

  lemma {:induction false} GeometricGrows(base: real, k: nat, n: nat)
    requires k <= n && base >= 0.0
    ensures 0.0 <= Geometric(base, k) <= Geometric(base, n)
  {
    if k < n {
      GeometricGrows(base, k, n - 1);
      TermPositive(base, n - 1);
    } else if n > 0 {
      GeometricGrows(base, n - 1, n - 1);
      TermPositive(base, n - 1);
    }
  }

  /** BACKOFF. All the sleeps before the k+1st attempt together lie between half the geometric sum
      base * (2^k - 1) and one and a half times it, up to half a millisecond of rounding each. */
  lemma {:induction false} SleptBetween(base: real, jitter: seq<real>, k: nat)
    requires k <= |jitter| && base >= 0.0 && forall i | 0 <= i < |jitter| :: 0.0 <= jitter[i] < 1.0
    ensures Geometric(base, k) == base * (Pow2(k) - 1) as real
    ensures 0.5 * Geometric(base, k) - 0.5 * k as real <= Slept(base, jitter, k) as real <= 1.5 * Geometric(base, k) + 0.5 * k as real
  {
    GeometricIs(base, k);
    if k > 0 {
      SleptBetween(base, jitter, k - 1);
      DelayBetween(base, k, jitter[k - 1]);
    }
  }

  /** SleepThrew: a backoff sleep threw, and its error left the loop. */
  datatype Outcome = Returned(status: int) | Thrown | SleepThrew

  /** fetch_record_with_retry: `script` is what each attempt meets, and `wakes` how each backoff
      sleep ends. */
  method FetchRecord(attempts: nat, base: real, script: seq<Attempt>, jitter: seq<real>, wakes: seq<bool>)
      returns (o: Outcome, made: nat, calls: nat, slept: int)
    requires |script| >= attempts && |jitter| >= attempts && |wakes| >= attempts && base >= 0.0
    requires forall i | 0 <= i < |jitter| :: 0.0 <= jitter[i] < 1.0
    // the first definitive status is returned at once; otherwise every attempt is used, unless a sleep throws
    ensures o.Returned? ==> 1 <= made <= attempts && EndingOf(script[made - 1]).status == Some(o.status) && o.status < 500 && o.status != 429
    ensures o.Thrown? ==> made == attempts && (made > 0 ==> EndingOf(script[made - 1]).status.None?)
    ensures o.SleepThrew? ==> 1 <= made < attempts && EndingOf(script[made - 1]).status.None? && !wakes[made - 1]
    ensures forall i | 0 <= i < made - 1 :: EndingOf(script[i]).status.None? && wakes[i]
    // the cost
    ensures calls == Calls(script, made) <= 2 * attempts
    ensures slept == if made > 0 then Slept(base, jitter, made - 1) else 0
    ensures attempts > 0 ==> slept as real <= 1.5 * Geometric(base, attempts - 1) + 0.5 * (attempts - 1) as real
  {
    made, calls, slept := 0, 0, 0;
    while made < attempts
      invariant 0 <= made <= attempts && calls == Calls(script, made)
      invariant slept == Slept(base, jitter, if made < attempts || made == 0 then made else made - 1)
      invariant forall i | 0 <= i < made :: EndingOf(script[i]).status.None? && (i < attempts - 1 ==> wakes[i])
    {
      var status, n := TryOnce(script[made]);
      made, calls := made + 1, calls + n;
      CallsBounded(script, made);
      if status.Some? {
        SleptWithin(base, jitter, made - 1, attempts - 1);
        return Returned(status.value), made, calls, slept;
      }
      if made < attempts {
        if !wakes[made - 1] {
          SleptWithin(base, jitter, made - 1, attempts - 1);
          return SleepThrew, made, calls, slept;
        }
        slept := slept + Delay(base, made, jitter[made - 1]);
      }
    }
    CallsBounded(script, made);
    if attempts > 0 { SleptWithin(base, jitter, made - 1, attempts - 1); }
    o := Thrown;
  }

  /** The body of the try block. */
  method TryOnce(a: Attempt) returns (status: Option<int>, calls: nat)
    ensures Ending(status, calls) == EndingOf(a)
    ensures status.Some? ==> status.value < 500 && status.value != 429
  {
    if !a.login { return None, 0; }
    calls := 1;
    var r := a.response;
    if r.Http? && Unauthorised(r.code) {
      if !a.relogin { return None, 1; }
      calls := 2;
      r := a.second;
    }
    status := if r.Http? && !Burst(r.code) then Some(r.code) else None;
  }

  lemma SleptWithin(base: real, jitter: seq<real>, k: nat, n: nat)
    requires k <= n <= |jitter| && base >= 0.0 && forall i | 0 <= i < |jitter| :: 0.0 <= jitter[i] < 1.0
    ensures Slept(base, jitter, k) as real <= 1.5 * Geometric(base, n) + 0.5 * n as real
  {
    SleptBetween(base, jitter, k);
    GeometricGrows(base, k, n);
    assert k as real <= n as real;
  }
}
