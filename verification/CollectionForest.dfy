/** The collection tree: rows of the object table linked by is_member_of_collection, the guarded
    ways of changing the links, and the two walks over them. */
module CollectionForest {
  import opened Basics

  type Pid = nat

  /** Parent is None for the empty string and null. A parent need not name a row. */
  datatype Row = Row(isCollection: bool, active: bool, parent: Option<Pid>, updated: bool)

  type Rows = map<Pid, Row>

  const MAX_DEPTH: nat := 100

  predicate ActiveCollection(rows: Rows, p: Pid) {
    p in rows && rows[p].isCollection && rows[p].active
  }

  // --- the upward walk ------------------------------------------------------------------------

  /** One step up as _is_descendant_of takes it: any collection row, active or not. */
  function Up(rows: Rows, p: Pid): Option<Pid> {
    if p in rows && rows[p].isCollection && rows[p].parent != Some(p) then rows[p].parent else None
  }

  /** The k-th ancestor. */
  function Ancestor(rows: Rows, p: Pid, k: nat): Option<Pid>
    decreases k
  {
    if k == 0 then Some(p)
    else if Up(rows, p).None? then None
    else Ancestor(rows, Up(rows, p).value, k - 1)
  }

  ghost predicate AncestorWithin(rows: Rows, p: Pid, a: Pid, n: nat) {
    exists k :: 1 <= k <= n && Ancestor(rows, p, k) == Some(a)
  }

  ghost predicate IsAncestor(rows: Rows, p: Pid, a: Pid) {
    exists k :: 1 <= k && Ancestor(rows, p, k) == Some(a)
  }

  ghost predicate Acyclic(rows: Rows) {
    forall p: Pid :: !IsAncestor(rows, p, p)
  }

  /** Chains have at most n links. */
  ghost predicate Shallow(rows: Rows, n: nat) {
    forall p: Pid, k | k > n :: Ancestor(rows, p, k) == None
  }

  lemma {:induction false} AncestorAdd(rows: Rows, p: Pid, j: nat, k: nat)
    ensures Ancestor(rows, p, j).Some? ==> Ancestor(rows, p, j + k) == Ancestor(rows, Ancestor(rows, p, j).value, k)
    ensures Ancestor(rows, p, j).None? ==> Ancestor(rows, p, j + k) == None
    decreases j
  {
    if j > 0 && Up(rows, p).Some? {
      AncestorAdd(rows, Up(rows, p).value, j - 1, k);
    }
  }

  /** _is_descendant_of, with its depth bound; proved to find exactly the ancestors within it. */
  method IsDescendantOf(rows: Rows, candidate: Pid, ancestor: Pid, maxDepth: nat := MAX_DEPTH) returns (found: bool)
    ensures found <==> AncestorWithin(rows, candidate, ancestor, maxDepth)
  {
    var current := candidate;
    var i := 0;
    while i < maxDepth
      invariant 0 <= i <= maxDepth && Ancestor(rows, candidate, i) == Some(current)
      invariant !AncestorWithin(rows, candidate, ancestor, i)
    {
      AncestorAdd(rows, candidate, i, 1);
      assert Ancestor(rows, current, 1) == Up(rows, current);
      if current !in rows || !rows[current].isCollection || rows[current].parent.None? || rows[current].parent.value == current {
        RunsOut(rows, candidate, ancestor, i, maxDepth);
        return false;
      }
      var parent := rows[current].parent.value;
      i := i + 1;
      if parent == ancestor { return true; }
      current := parent;
    }
    return false;
  }

  lemma RunsOut(rows: Rows, p: Pid, a: Pid, i: nat, n: nat)
    requires Ancestor(rows, p, i + 1) == None && !AncestorWithin(rows, p, a, i)
    ensures !AncestorWithin(rows, p, a, n)
  {
    forall k | 1 <= k <= n ensures Ancestor(rows, p, k) != Some(a) {
      if k > i { AncestorAdd(rows, p, i + 1, k - i - 1); }
    }
  }

  // --- the operations ---------------------------------------------------------------------------

  datatype Refusal = NotFound | Invalid | Conflict

  datatype Result<+T> = Ok(value: T) | Refused(why: Refusal)

  /** Whether move_collection accepts pid under the target. */
  ghost predicate Accepts(rows: Rows, pid: Pid, target: Option<Pid>) {
    && ActiveCollection(rows, pid)
    && (target.Some? ==>
          && target.value != pid && ActiveCollection(rows, target.value)
          && !AncestorWithin(rows, target.value, pid, MAX_DEPTH))
  }

  function Moved(rows: Rows, pid: Pid, target: Option<Pid>): Rows
    requires pid in rows
  {
    if rows[pid].parent == target then rows
    else rows[pid := rows[pid].(parent := target, updated := true)]
  }

  predicate Occupied(rows: Rows, pid: Pid) {
    exists c :: c in rows && rows[c].active && rows[c].parent == Some(pid)
  }

  function Deleted(rows: Rows, pid: Pid): Rows
    requires pid in rows
  {
    rows[pid := rows[pid].(active := false, updated := true)]
  }

  function WithMembers(rows: Rows, coll: Pid, pids: set<Pid>): Rows {
    map p | p in rows ::
      if p in pids && rows[p].active && !rows[p].isCollection then rows[p].(parent := Some(coll), updated := true) else rows[p]
  }

  class Collections {
    var rows: Rows

    method Move(pid: Pid, target: Option<Pid>) returns (r: Result<bool>)
      modifies this
      ensures r.Ok? <==> Accepts(old(rows), pid, target)
      ensures r.Ok? ==> rows == Moved(old(rows), pid, target) && (r.value <==> old(rows)[pid].parent != target)
      // the row hangs under its target and is queued for the index; nothing else changes
      ensures r == Ok(true) ==>
        && rows.Keys == old(rows).Keys && rows[pid] == Row(true, true, target, true)
        && forall p | p in rows && p != pid :: rows[p] == old(rows)[p]
      ensures r == Ok(false) || r.Refused? ==> rows == old(rows)
      ensures r == Refused(NotFound) <==> (!ActiveCollection(old(rows), pid)
        || (target.Some? && target.value != pid && !ActiveCollection(old(rows), target.value)))
      ensures r.Refused? ==> !r.why.Conflict?
    {
      if !ActiveCollection(rows, pid) { return Refused(NotFound); }
      if target.Some? {
        if target.value == pid { return Refused(Invalid); }
        if !ActiveCollection(rows, target.value) { return Refused(NotFound); }
        var cyclic := IsDescendantOf(rows, target.value, pid);
        if cyclic { return Refused(Invalid); }
      }
      if rows[pid].parent == target { return Ok(false); }
      rows := rows[pid := rows[pid].(parent := target, updated := true)];
      return Ok(true);
    }

    method Delete(pid: Pid) returns (r: Result<Option<Pid>>)
      modifies this
      ensures r.Ok? <==> ActiveCollection(old(rows), pid) && !Occupied(old(rows), pid)
      ensures r.Ok? ==> rows == Deleted(old(rows), pid) && r.value == old(rows)[pid].parent
      // the row is inactive and queued for the index; nothing else changes
      ensures r.Ok? ==>
        && rows.Keys == old(rows).Keys && rows[pid] == Row(true, false, old(rows)[pid].parent, true)
        && forall p | p in rows && p != pid :: rows[p] == old(rows)[p]
      ensures r.Refused? ==> rows == old(rows) && r.why == if ActiveCollection(old(rows), pid) then Conflict else NotFound
    {
      if !ActiveCollection(rows, pid) { return Refused(NotFound); }
      var children := set c | c in rows && rows[c].active && rows[c].parent == Some(pid);
      assert forall c | c in rows && rows[c].active && rows[c].parent == Some(pid) :: c in children;
      if children != {} { return Refused(Conflict); }
      r := Ok(rows[pid].parent);
      rows := rows[pid := rows[pid].(active := false, updated := true)];
    }

    method AddMembers(coll: Pid, pids: seq<Pid>) returns (r: Result<nat>)
      modifies this
      ensures r.Ok? <==> 0 < |pids| <= 100 && ActiveCollection(old(rows), coll)
      ensures r.Ok? ==> rows == WithMembers(old(rows), coll, set p | p in pids)
      ensures r.Ok? ==> r.value == |set p | p in pids && p in old(rows) && old(rows)[p].active && !old(rows)[p].isCollection|
      // the listed active objects hang under the collection and are queued for the index; nothing else changes
      ensures r.Ok? ==> rows.Keys == old(rows).Keys
      ensures r.Ok? ==> forall p | p in rows ::
        if p in pids && old(rows)[p].active && !old(rows)[p].isCollection
        then rows[p] == Row(false, true, Some(coll), true) else rows[p] == old(rows)[p]
      ensures r.Refused? ==> rows == old(rows) && r.why == if 0 < |pids| <= 100 then NotFound else Invalid
    {
      if |pids| == 0 || |pids| > 100 { return Refused(Invalid); }
      if !ActiveCollection(rows, coll) { return Refused(NotFound); }
      r := Ok(|set p | p in pids && p in rows && rows[p].active && !rows[p].isCollection|);
      rows := WithMembers(rows, coll, set p | p in pids);
    }

    /** is_empty for each sub-collection of the parent: the count that drives the Delete button. */
    method SubCollections(parent: Pid) returns (empty: map<Pid, bool>)
      ensures empty.Keys == set p | p in rows && ActiveCollection(rows, p) && rows[p].parent == Some(parent)
      ensures forall p | p in empty :: empty[p] <==> ActiveCollection(rows, p) && !Occupied(rows, p)
    {
      var subs := set p | p in rows && ActiveCollection(rows, p) && rows[p].parent == Some(parent);
      var t := rows;
      var occupied := set c | c in t && t[c].active && t[c].parent.Some? && t[c].parent.value in subs :: t[c].parent.value;
      empty := map p | p in subs :: p !in occupied;
      forall p | p in subs ensures p in occupied <==> Occupied(rows, p) {
        if Occupied(rows, p) {
          var c :| c in rows && rows[c].active && rows[c].parent == Some(p);
          assert t[c].parent.value in occupied;
        }
      }
    }

    /** eligible_parents: the children map, a search down from pid, and the rest. */
    method EligibleParents(pid: Pid) returns (eligible: set<Pid>)
      ensures eligible == set p | p in rows && ActiveCollection(rows, p) && p != pid && !Below(rows, p, pid)
    {
      var t := rows;
      var all := set p | p in t && ActiveCollection(t, p);
      var excluded := {pid};
      var queue := ChildrenOf(t, pid);
      BelowStep(t, pid, pid);
      while queue != []
        invariant pid in excluded && excluded <= all + {pid}
        invariant forall c | c in queue :: c in all && Below(t, c, pid)
        invariant forall c | c in excluded :: c == pid || Below(t, c, pid)
        invariant forall c, g | c in excluded && IsChild(t, g, c) :: g in excluded || g in queue
        decreases all - excluded, |queue|
      {
        var c, rest := queue[0], queue[1..];
        if c in excluded {
          assert forall g | g in queue && g != c :: g in rest;
          queue := rest;
          continue;
        }
        BelowStep(t, c, pid);
        var children := ChildrenOf(t, c);
        excluded := excluded + {c};
        queue := rest + children;
      }
      forall p | Below(t, p, pid) ensures p in excluded {
        var n :| 1 <= n && ReachesIn(t, p, pid, n);
        AllFound(t, p, pid, n, excluded);
      }
      eligible := all - excluded;
    }
  }

  // --- the downward search -------------------------------------------------------------------------

  /** children_of is built from the active collections alone. */
  predicate IsChild(rows: Rows, c: Pid, p: Pid) {
    ActiveCollection(rows, c) && rows[c].parent == Some(p)
  }

  /** Descends from p through active collections, in n links. */
  ghost predicate ReachesIn(rows: Rows, c: Pid, p: Pid, n: nat)
    decreases n
  {
    if n == 0 then c == p
    else ActiveCollection(rows, c) && rows[c].parent.Some? && ReachesIn(rows, rows[c].parent.value, p, n - 1)
  }

  ghost predicate Below(rows: Rows, c: Pid, p: Pid) {
    exists n :: 1 <= n && ReachesIn(rows, c, p, n)
  }

  /** children_of.get(p), in the order of the SELECT. */
  method ChildrenOf(rows: Rows, p: Pid) returns (children: seq<Pid>)
    ensures forall c :: c in children <==> IsChild(rows, c, p)
  {
    children := [];
    var left := set c | c in rows && IsChild(rows, c, p);
    while left != {}
      invariant forall c :: c in children || c in left <==> IsChild(rows, c, p)
    {
      var c :| c in left;
      children := children + [c];
      left := left - {c};
    }
  }

  lemma BelowStep(rows: Rows, c: Pid, p: Pid)
    requires Below(rows, c, p) || c == p
    ensures forall g | IsChild(rows, g, c) :: Below(rows, g, p)
  {
    forall g | IsChild(rows, g, c) ensures Below(rows, g, p) {
      if c == p {
        assert ReachesIn(rows, g, p, 1);
      } else {
        var n :| 1 <= n && ReachesIn(rows, c, p, n);
        assert ReachesIn(rows, g, p, n + 1);
      }
    }
  }

  lemma {:induction false} AllFound(rows: Rows, c: Pid, p: Pid, n: nat, excluded: set<Pid>)
    requires ReachesIn(rows, c, p, n) && p in excluded
    requires forall x, g | x in excluded && IsChild(rows, g, x) :: g in excluded
    ensures c in excluded
    decreases n
  {
    if n > 0 {
      AllFound(rows, rows[c].parent.value, p, n - 1, excluded);
      assert IsChild(rows, c, rows[c].parent.value);
    }
  }

  // --- the two walks agree ------------------------------------------------------------------------

  /** Active collections sit at the top level or under another active collection. */
  ghost predicate Nested(rows: Rows) {
    forall p | ActiveCollection(rows, p) && rows[p].parent.Some? ::
      rows[p].parent.value != p && ActiveCollection(rows, rows[p].parent.value)
  }

  lemma {:induction false} WalksAgree(rows: Rows, c: Pid, p: Pid, n: nat)
    requires Nested(rows) && ActiveCollection(rows, c)
    ensures ReachesIn(rows, c, p, n) <==> Ancestor(rows, c, n) == Some(p)
    decreases n
  {
    if n > 0 && rows[c].parent.Some? {
      WalksAgree(rows, rows[c].parent.value, p, n - 1);
    }
  }

  /** What eligible_parents offers for pid. */
  ghost predicate Offers(rows: Rows, pid: Pid, t: Pid) {
    ActiveCollection(rows, t) && t != pid && !Below(rows, t, pid)
  }

  /** t lies below pid, but deeper than the bounded walk looks. */
  ghost predicate TooDeep(rows: Rows, pid: Pid, t: Pid) {
    ActiveCollection(rows, t) && t != pid && IsAncestor(rows, t, pid) && !AncestorWithin(rows, t, pid, MAX_DEPTH)
  }

  lemma NotTooDeep(rows: Rows, pid: Pid, t: Pid)
    requires Shallow(rows, MAX_DEPTH)
    ensures !TooDeep(rows, pid, t)
  {
    forall k | 1 <= k && Ancestor(rows, t, k) == Some(pid) ensures AncestorWithin(rows, t, pid, MAX_DEPTH) {
    }
  }

  lemma OffersOrTooDeep(rows: Rows, pid: Pid, t: Pid)
    requires Nested(rows) && ActiveCollection(rows, pid)
    ensures Accepts(rows, pid, Some(t)) <==> Offers(rows, pid, t) || TooDeep(rows, pid, t)
    ensures !(Offers(rows, pid, t) && TooDeep(rows, pid, t))
  {
    if ActiveCollection(rows, t) {
      forall n: nat ensures ReachesIn(rows, t, pid, n) <==> Ancestor(rows, t, n) == Some(pid) {
        WalksAgree(rows, t, pid, n);
      }
      assert Below(rows, t, pid) <==> IsAncestor(rows, t, pid) by {
        if Below(rows, t, pid) {
          var n :| 1 <= n && ReachesIn(rows, t, pid, n);
          assert Ancestor(rows, t, n) == Some(pid);
        }
        if IsAncestor(rows, t, pid) {
          var n :| 1 <= n && Ancestor(rows, t, n) == Some(pid);
          assert ReachesIn(rows, t, pid, n);
        }
      }
    }
  }

  /** UP EQUALS DOWN. Over properly nested collections the parents offered for pid are all
      accepted, and they are the only ones exactly when pid has no descendant more than 100
      links down; in particular when chains have at most 100 links. */
  lemma OfferedIsAccepted(rows: Rows, pid: Pid)
    requires Nested(rows) && ActiveCollection(rows, pid)
    ensures forall t :: Offers(rows, pid, t) ==> Accepts(rows, pid, Some(t))
    ensures (forall t :: Offers(rows, pid, t) <==> Accepts(rows, pid, Some(t))) <==> !(exists t :: TooDeep(rows, pid, t))
    ensures Shallow(rows, MAX_DEPTH) ==> forall t :: Offers(rows, pid, t) <==> Accepts(rows, pid, Some(t))
  {
    forall t: Pid
      ensures Accepts(rows, pid, Some(t)) <==> Offers(rows, pid, t) || TooDeep(rows, pid, t)
      ensures !(Offers(rows, pid, t) && TooDeep(rows, pid, t))
      ensures Shallow(rows, MAX_DEPTH) ==> !TooDeep(rows, pid, t)
    {
      OffersOrTooDeep(rows, pid, t);
    }
  }

  // --- acyclicity -------------------------------------------------------------------------------------

  lemma {:induction false} FirstHit(rows: Rows, p: Pid, a: Pid, k: nat) returns (j: nat)
    requires Ancestor(rows, p, k) == Some(a)
    ensures j <= k && Ancestor(rows, p, j) == Some(a) && forall i | 0 <= i < j :: Ancestor(rows, p, i) != Some(a)
    decreases k
  {
    if i :| 0 <= i < k && Ancestor(rows, p, i) == Some(a) {
      j := FirstHit(rows, p, a, i);
    } else {
      j := k;
    }
  }

  /** Re-parenting pid changes no chain before it reaches pid. */
  lemma {:induction false} SameUntil(rows: Rows, rows': Rows, pid: Pid, p: Pid, k: nat)
    requires forall x | x != pid :: Up(rows, x) == Up(rows', x)
    requires forall j | 0 <= j < k :: Ancestor(rows, p, j) != Some(pid)
    ensures Ancestor(rows', p, k) == Ancestor(rows, p, k)
    decreases k
  {
    if k > 0 {
      assert Ancestor(rows, p, 0) == Some(p);
      if Up(rows, p).Some? {
        forall j | 0 <= j < k - 1 ensures Ancestor(rows, Up(rows, p).value, j) != Some(pid) {
          assert Ancestor(rows, p, j + 1) != Some(pid);
        }
        SameUntil(rows, rows', pid, Up(rows, p).value, k - 1);
      }
    }
  }

  lemma Rotate(rows: Rows, p: Pid, a: Pid, j: nat, k: nat)
    requires Ancestor(rows, p, k) == Some(p) && Ancestor(rows, p, j) == Some(a)
    ensures Ancestor(rows, a, k) == Some(a)
  {
    AncestorAdd(rows, p, k, j);
    AncestorAdd(rows, p, j, k);
  }

  lemma NewCycle(rows: Rows, rows': Rows, pid: Pid, t: Pid, p: Pid, k: nat)
    requires Acyclic(rows) && t != pid && 1 <= k
    requires (forall x | x != pid :: Up(rows, x) == Up(rows', x)) && Up(rows', pid) == Some(t)
    requires Ancestor(rows', p, k) == Some(p)
    ensures IsAncestor(rows, t, pid)
  {
    if j :| 0 <= j < k && Ancestor(rows', p, j) == Some(pid) {
      Rotate(rows', p, pid, j, k);
      var m := FirstHit(rows', t, pid, k - 1);
      SameUntil(rows', rows, pid, t, m);
      assert m >= 1;
    } else {
      SameUntil(rows', rows, pid, p, k);
      assert IsAncestor(rows, p, p);
    }
  }

  /** A move puts a cycle into the forest exactly when pid is an ancestor of its new parent,
      which an accepted move leaves possible only beyond the walk's 100 links. */
  lemma MoveKeepsAcyclicIff(rows: Rows, pid: Pid, t: Pid)
    requires Acyclic(rows) && Accepts(rows, pid, Some(t))
    ensures Acyclic(Moved(rows, pid, Some(t))) <==> !IsAncestor(rows, t, pid)
    ensures IsAncestor(rows, t, pid) ==> TooDeep(rows, pid, t)
  {
    var rows' := Moved(rows, pid, Some(t));
    if IsAncestor(rows, t, pid) {
      var k :| 1 <= k && Ancestor(rows, t, k) == Some(pid);
      var m := FirstHit(rows, t, pid, k);
      SameUntil(rows, rows', pid, t, m);
      assert Ancestor(rows', pid, m + 1) == Some(pid);
      assert IsAncestor(rows', pid, pid);
    } else {
      forall p: Pid ensures !IsAncestor(rows', p, p) {
        if IsAncestor(rows', p, p) {
          var k :| 1 <= k && Ancestor(rows', p, k) == Some(p);
          NewCycle(rows, rows', pid, t, p, k);
        }
      }
    }
  }

  function Link(p: Pid): Row {
    Row(true, true, if p == 0 then None else Some(p - 1), false)
  }

  /** A chain of n collections, each under the one before. */
  function Chain(n: nat): Rows {
    map p: Pid | p < n :: Link(p)
  }

  lemma {:induction false} ChainAncestor(n: nat, p: Pid, k: nat)
    requires p < n
    ensures Ancestor(Chain(n), p, k) == if k <= p then Some(p - k) else None
    decreases k
  {
    if k > 0 && p > 0 {
      ChainAncestor(n, p - 1, k - 1);
    }
  }

  /** The bound can be met: on a chain of 102 collections the top one may be moved under the
      bottom one, which closes the whole chain into a cycle. */
  lemma DeepMoveMakesCycle(bottom: Pid)
    requires bottom == 101
    ensures var rows := Chain(bottom + 1);
      Nested(rows) && Acyclic(rows) && Accepts(rows, 0, Some(bottom)) && !Acyclic(Moved(rows, 0, Some(bottom)))
  {
    var rows := Chain(bottom + 1);
    forall p: Pid, k | 1 <= k ensures Ancestor(rows, p, k) != Some(p) {
      if p < bottom + 1 { ChainAncestor(bottom + 1, p, k); } else { assert Up(rows, p) == None; }
    }
    forall k | 1 <= k <= MAX_DEPTH ensures Ancestor(rows, bottom, k) != Some(0) {
      ChainAncestor(bottom + 1, bottom, k);
    }
    ChainAncestor(bottom + 1, bottom, bottom);
    assert IsAncestor(rows, bottom, 0);
    MoveKeepsAcyclicIff(rows, 0, bottom);
  }

  /** One collection fewer, and the walk finds the top one: the move is refused. */
  lemma ShallowMoveIsRefused(bottom: Pid)
    requires bottom == 100
    ensures !Accepts(Chain(bottom + 1), 0, Some(bottom))
  {
    ChainAncestor(bottom + 1, bottom, bottom);
    assert AncestorWithin(Chain(bottom + 1), bottom, 0, MAX_DEPTH);
  }

  // --- every way the links change -----------------------------------------------------------------------

  datatype Step =
    | Create(pid: Pid, parent: Option<Pid>)      // create_collection
    | MoveUnder(pid: Pid, target: Option<Pid>)
    | Delete(pid: Pid)
    | AddMembers(coll: Pid, pids: set<Pid>)
    | SoftDelete(pid: Pid)                       // the object delete, which looks at no object_type

  ghost predicate Enabled(rows: Rows, s: Step) {
    match s
    case Create(pid, parent) =>
      && pid !in rows && (forall p | p in rows :: rows[p].parent != Some(pid))
      && (parent.Some? ==> ActiveCollection(rows, parent.value))
    case MoveUnder(pid, target) => Accepts(rows, pid, target)
    case Delete(pid) => ActiveCollection(rows, pid) && !Occupied(rows, pid)
    case AddMembers(coll, _) => ActiveCollection(rows, coll)
    case SoftDelete(pid) => pid in rows && rows[pid].active
  }

  function Apply(rows: Rows, s: Step): Rows
    requires Enabled(rows, s)
  {
    match s
    case Create(pid, parent) => rows[pid := Row(true, true, parent, true)]
    case MoveUnder(pid, target) => Moved(rows, pid, target)
    case Delete(pid) => Deleted(rows, pid)
    case AddMembers(coll, pids) => WithMembers(rows, coll, pids)
    case SoftDelete(pid) => Deleted(rows, pid)
  }

  /** What a step makes of the rows: only a new collection appears, under its parent, and only a move
      and a filing under a collection change where a row hangs. */
  lemma StepOnRow(rows: Rows, s: Step, p: Pid)
    requires Enabled(rows, s)
    ensures p in Apply(rows, s) <==> p in rows || (s.Create? && p == s.pid)
    ensures s.Create? && p == s.pid ==> Apply(rows, s)[p] == Row(true, true, s.parent, true)
    ensures p in rows ==> var r, r' := rows[p], Apply(rows, s)[p];
      && r'.isCollection == r.isCollection
      && r'.active == (r.active && !((s.Delete? || s.SoftDelete?) && p == s.pid))
      && r'.parent == (if s.MoveUnder? && p == s.pid then s.target
                       else if s.AddMembers? && p in s.pids && r.active && !r.isCollection then Some(s.coll) else r.parent)
      && (r' != r ==> r'.updated)
  {
  }

  /** No active row, collection or object, is under anything but an active collection. */
  ghost predicate Housed(rows: Rows) {
    forall p | p in rows && rows[p].active && rows[p].parent.Some? ::
      rows[p].parent.value != p && ActiveCollection(rows, rows[p].parent.value)
  }

  ghost predicate Sound(rows: Rows) {
    Housed(rows) && Acyclic(rows)
  }

  /** The two ways a step can spoil the tree. */
  ghost predicate Spoils(rows: Rows, s: Step) {
    || (s.MoveUnder? && s.target.Some? && IsAncestor(rows, s.target.value, s.pid))
    || (s.SoftDelete? && Occupied(rows, s.pid))
  }

  lemma SameLinks(rows: Rows, rows': Rows, pid: Pid)
    requires Acyclic(rows)
    requires forall x :: Up(rows', x) == Up(rows, x) || (x == pid && Up(rows', x) == None)
    ensures Acyclic(rows')
  {
    forall p: Pid ensures !IsAncestor(rows', p, p) {
      if IsAncestor(rows', p, p) {
        var k :| 1 <= k && Ancestor(rows', p, k) == Some(p);
        if j :| 0 <= j < k && Ancestor(rows', p, j) == Some(pid) {
          Rotate(rows', p, pid, j, k);
          assert Up(rows', pid).Some?;
          assert Up(rows', pid) == Up(rows, pid);
          forall x: Pid ensures Up(rows', x) == Up(rows, x) {}
          AllSame(rows, rows', p, k);
        } else {
          SameUntil(rows', rows, pid, p, k);
        }
        assert IsAncestor(rows, p, p);
      }
    }
  }

  lemma {:induction false} AllSame(rows: Rows, rows': Rows, p: Pid, k: nat)
    requires forall x :: Up(rows', x) == Up(rows, x)
    ensures Ancestor(rows', p, k) == Ancestor(rows, p, k)
    decreases k
  {
    if k > 0 && Up(rows, p).Some? { AllSame(rows, rows', Up(rows, p).value, k - 1); }
  }

  lemma {:induction false} NoneAbove(rows: Rows, p: Pid, a: Pid, k: nat)
    requires 1 <= k && forall x | x in rows :: rows[x].parent != Some(a)
    ensures Ancestor(rows, p, k) != Some(a)
    decreases k
  {
    if k > 1 && Up(rows, p).Some? { NoneAbove(rows, Up(rows, p).value, a, k - 1); }
  }

  lemma CreateKeepsAcyclic(rows: Rows, pid: Pid, parent: Option<Pid>)
    requires Acyclic(rows) && Enabled(rows, Create(pid, parent))
    ensures Acyclic(Apply(rows, Create(pid, parent)))
  {
    var rows' := Apply(rows, Create(pid, parent));
    if parent.Some? {
      forall k | 1 <= k ensures Ancestor(rows, parent.value, k) != Some(pid) {
        NoneAbove(rows, parent.value, pid, k);
      }
      forall p: Pid ensures !IsAncestor(rows', p, p) {
        if IsAncestor(rows', p, p) {
          var k :| 1 <= k && Ancestor(rows', p, k) == Some(p);
          NewCycle(rows, rows', pid, parent.value, p, k);
        }
      }
    } else {
      SameLinks(rows, rows', pid);
    }
  }

  /** FOREST, one step. */
  lemma StepKeepsForestIff(rows: Rows, s: Step)
    requires Sound(rows) && Enabled(rows, s)
    ensures Sound(Apply(rows, s)) <==> !Spoils(rows, s)
  {
    var rows' := Apply(rows, s);
    match s
    case Create(pid, parent) =>
      CreateKeepsAcyclic(rows, pid, parent);
    case MoveUnder(pid, target) =>
      if target.Some? { MoveKeepsAcyclicIff(rows, pid, target.value); } else { SameLinks(rows, rows', pid); }
    case Delete(pid) =>
      SameLinks(rows, rows', pid);
    case AddMembers(coll, pids) =>
      SameLinks(rows, rows', coll);
    case SoftDelete(pid) =>
      SameLinks(rows, rows', pid);
      if Occupied(rows, pid) {
        var c :| c in rows && rows[c].active && rows[c].parent == Some(pid);
        assert rows'[c].parent == Some(pid) && !ActiveCollection(rows', pid);
      }
  }

  ghost predicate IsRun(tables: seq<Rows>, steps: seq<Step>) {
    && |tables| == |steps| + 1
    && forall k | 0 <= k < |steps| :: Enabled(tables[k], steps[k]) && tables[k + 1] == Apply(tables[k], steps[k])
  }

  /** FOREST over runs: while chains stay within the walk's bound, any sequence of creates,
      moves, deletes and adds keeps the links acyclic and leaves no active row under a
      deactivated collection; the object delete is the one operation that has to be kept off
      occupied rows by its caller. */
  lemma {:induction false} ForestKept(tables: seq<Rows>, steps: seq<Step>, n: nat)
    requires IsRun(tables, steps) && n < |tables| && Sound(tables[0])
    requires forall k | 0 <= k < |steps| && steps[k].MoveUnder? :: Shallow(tables[k], MAX_DEPTH)
    requires forall k | 0 <= k < |steps| && steps[k].SoftDelete? :: !Occupied(tables[k], steps[k].pid)
    ensures Sound(tables[n])
  {
    if n > 0 {
      ForestKept(tables, steps, n - 1);
      var rows, s := tables[n - 1], steps[n - 1];
      if s.MoveUnder? && s.target.Some? {
        MoveKeepsAcyclicIff(rows, s.pid, s.target.value);
        NotTooDeep(rows, s.pid, s.target.value);
      }
      StepKeepsForestIff(rows, s);
    }
  }
}
