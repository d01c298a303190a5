/** The merged parts manifest: the ArchivesSpace parts of a record joined with the file list of
    its dissemination package. */
module PartsManifest {
  import opened Basics
  import opened TextUtil

  /** A JSON field: missing, null, or a string. */
  datatype Text = Absent | Null | Str(s: string)

  /** An entry of either list, or of the merged one. */
  datatype Part = Part(
    order: Text, title: Text, mime: Text, caption: Text, kalturaId: Text, entryId: Text,
    objectPath: Text, thumbnail: Text,
    file: Text, fileId: Text, uuid: Text, dipMime: Text)

  const NO_PART := Part(Absent, Absent, Absent, Absent, Absent, Absent, Absent, Absent, Absent, Absent, Absent, Absent)

  /** A DIP entry's `type` says whether it is a sidecar; an ASpace entry's is its MIME, here mime. */
  datatype Dip = Dip(txt: bool, part: Part)

  predicate Truthy(t: Text) {
    t.Str? && t.s != ""
  }

  /** a || b */
  function Or(a: Text, b: Text): Text {
    if Truthy(a) then a else b
  }

  /** a || null */
  function OrNull(a: Text): Text {
    Or(a, Null)
  }

  // --- file names ------------------------------------------------------------------------------

  function Lower(c: char): char {
    if 'A' <= c <= 'Z' then (c as int + 32) as char else c
  }

  function Lowered(s: string): string {
    seq(|s|, i requires 0 <= i < |s| => Lower(s[i]))
  }

  function FileKey(name: Text): string {
    if name.Str? then Lowered(Trim(name.s)) else ""
  }

  /** lastIndexOf: -1 when there is none. */
  function LastIndexOf(s: string, c: char): (i: int)
    ensures -1 <= i < |s|
    ensures i >= 0 ==> s[i] == c
    ensures forall j | i < j < |s| :: s[j] != c
  {
    if s == "" then -1
    else if s[|s| - 1] == c then |s| - 1
    else LastIndexOf(s[..|s| - 1], c)
  }

  function StripExt(name: Text): string {
    var k := FileKey(name);
    var dot := LastIndexOf(k, '.');
    if dot > 0 then k[..dot] else k
  }

  predicate StartsWith(s: string, prefix: string) {
    prefix <= s
  }

  function Prefixed(path: string, uuid: string): string {
    var cut := LastIndexOf(path, '/');
    var dir, base, stem := path[..cut + 1], path[cut + 1..], uuid + "-";
    if StartsWith(base, stem) then path else dir + (stem + base)
  }

  /** dip_object_path: a path, or Null. */
  function ObjectPath(p: Part): Text {
    if !Truthy(p.objectPath) || !Truthy(p.uuid) then OrNull(p.objectPath)
    else Str(Prefixed(p.objectPath.s, p.uuid.s))
  }

  lemma {:induction false} LastIndexIs(s: string, c: char, i: nat)
    requires i < |s| && s[i] == c && forall j | i < j < |s| :: s[j] != c
    ensures LastIndexOf(s, c) == i
  {
  }

  /** Normalising a path twice is normalising it once, exactly when there is nothing to
      normalise or the uuid holds no slash. */
  lemma ObjectPathIdempotentIff(p: Part)
    ensures ObjectPath(p.(objectPath := ObjectPath(p))) == ObjectPath(p) <==>
            (Truthy(p.objectPath) && Truthy(p.uuid) ==> '/' !in p.uuid.s)
  {
    if Truthy(p.objectPath) && Truthy(p.uuid) {
      PrefixedTwice(p.objectPath.s, p.uuid.s);
    }
  }

  lemma SameCut(dir: string, base: string, cut: int, old0: string)
    requires -1 <= cut < |old0| && |dir| == cut + 1 && dir == old0[..cut + 1] && (cut >= 0 ==> old0[cut] == '/')
    requires '/' !in base
    ensures LastIndexOf(dir + base, '/') == cut
  {
    var s := dir + base;
    assert forall j | cut < j < |s| :: s[j] == base[j - cut - 1];
    if cut >= 0 { LastIndexIs(s, '/', cut); }
  }

  lemma KeepsPrefixed(s: string, cut: int, uuid: string)
    requires LastIndexOf(s, '/') == cut && StartsWith(s[cut + 1..], uuid + "-")
    ensures Prefixed(s, uuid) == s
  {
  }

  lemma JoinWithout(a: string, b: string, c: char)
    requires c !in a && c !in b
    ensures c !in a + b
  {
  }

  lemma {:induction false} Renamed(path: string, cut: int, stem: string, base: string, uuid: string)
    requires -1 <= cut < |path| && (cut >= 0 ==> path[cut] == '/')
    requires '/' !in stem && '/' !in base && stem == uuid + "-"
    ensures Prefixed(path[..cut + 1] + (stem + base), uuid) == path[..cut + 1] + (stem + base)
  {
    var once := path[..cut + 1] + (stem + base);
    JoinWithout(stem, base, '/');
    SameCut(path[..cut + 1], stem + base, cut, path);
    assert once[cut + 1..] == stem + base;
    KeepsPrefixed(once, cut, uuid);
  }

  lemma NoSlashAfter(path: string, cut: int)
    requires cut == LastIndexOf(path, '/')
    ensures '/' !in path[cut + 1..]
  {
  }

  lemma {:induction false} CleanParts(path: string, uuid: string, cut: int, base: string, stem: string)
    requires cut == LastIndexOf(path, '/') && base == path[cut + 1..] && stem == uuid + "-"
    requires '/' !in stem && '/' !in base
    ensures Prefixed(Prefixed(path, uuid), uuid) == Prefixed(path, uuid)
  {
    if !StartsWith(base, stem) {
      var once := Prefixed(path, uuid);
      assert once == path[..cut + 1] + (stem + base);
      Renamed(path, cut, stem, base, uuid);
    }
  }

  lemma StemWithout(uuid: string)
    requires '/' !in uuid
    ensures '/' !in uuid + "-"
  {
  }

  lemma {:induction false} CleanTwice(path: string, uuid: string)
    requires '/' !in uuid
    ensures Prefixed(Prefixed(path, uuid), uuid) == Prefixed(path, uuid)
  {
    var cut := LastIndexOf(path, '/');
    NoSlashAfter(path, cut);
    StemWithout(uuid);
    CleanParts(path, uuid, cut, path[cut + 1..], uuid + "-");
  }

  lemma {:induction false} PrefixedTwice(path: string, uuid: string)
    requires path != "" && uuid != ""
    ensures Prefixed(path, uuid) != ""
    ensures Prefixed(Prefixed(path, uuid), uuid) == Prefixed(path, uuid) <==> '/' !in uuid
  {
    if '/' in uuid {
      SlashNeverPrefixes(path, uuid);
      SlashNeverPrefixes(Prefixed(path, uuid), uuid);
    } else {
      CleanTwice(path, uuid);
    }
  }

  lemma SlashNeverPrefixes(path: string, uuid: string)
    requires '/' in uuid
    ensures |Prefixed(path, uuid)| > |path|
  {
    var cut := LastIndexOf(path, '/');
    var base := path[cut + 1..];
    assert '/' !in base && '/' in uuid + "-";
    if StartsWith(base, uuid + "-") { PrefixIn(base, uuid + "-", '/'); }
  }

  lemma PrefixIn(s: string, prefix: string, c: char)
    requires prefix <= s && c in prefix
    ensures c in s
  {
    var i :| 0 <= i < |prefix| && prefix[i] == c;
    assert s[i] == c;
  }

  // --- the merge -----------------------------------------------------------------------------------

  function Digits(n: nat): string {
    var d := [('0' as int + n % 10) as char];
    if n < 10 then d else Digits(n / 10) + d
  }

  function Objects(dip: seq<Dip>): seq<Part> {
    if dip == [] then []
    else Objects(dip[..|dip| - 1]) + if dip[|dip| - 1].txt then [] else [dip[|dip| - 1].part]
  }

  /** by_file and by_file_id: the first entry that has the key. */
  function FirstFile(objs: seq<Part>, key: string, n: nat): (i: Option<nat>)
    requires n <= |objs|
    ensures i.Some? ==> i.value < n && objs[i.value].file != Absent && FileKey(objs[i.value].file) == key
    ensures forall j | 0 <= j < n && objs[j].file != Absent && FileKey(objs[j].file) == key :: i.Some? && i.value <= j
  {
    if n == 0 then None
    else
      var i := FirstFile(objs, key, n - 1);
      if i.None? && objs[n - 1].file != Absent && FileKey(objs[n - 1].file) == key then Some(n - 1) else i
  }

  function FirstFileId(objs: seq<Part>, key: string, n: nat): (i: Option<nat>)
    requires n <= |objs|
    ensures i.Some? ==> i.value < n
  {
    if n == 0 then None
    else
      var i := FirstFileId(objs, key, n - 1);
      if i.None? && objs[n - 1].fileId != Absent && FileKey(objs[n - 1].fileId) == key then Some(n - 1) else i
  }

  function FirstUnclaimed(n: nat, claimed: set<nat>): (i: Option<nat>)
    ensures i.Some? ==> i.value < n && i.value !in claimed && forall j | 0 <= j < i.value :: j in claimed
    ensures i.None? ==> forall j | 0 <= j < n :: j in claimed
  {
    if n == 0 then None
    else
      var i := FirstUnclaimed(n - 1, claimed);
      if i.None? && n - 1 !in claimed then Some(n - 1) else i
  }

  function ByName(title: Text, objs: seq<Part>): (i: Option<nat>)
    ensures i.Some? ==> i.value < |objs|
  {
    var i := FirstFile(objs, FileKey(title), |objs|);
    if i.Some? then i else FirstFileId(objs, StripExt(title), |objs|)
  }

  /** The DIP entry that an ASpace part is paired with; an untitled part takes the next free one. */
  function Match(p: Part, objs: seq<Part>, claimed: set<nat>): (i: Option<nat>)
    ensures i.Some? ==> i.value < |objs|
  {
    var i := ByName(p.title, objs);
    if i.Some? || Truthy(p.title) then i else FirstUnclaimed(|objs|, claimed)
  }

  function Claims(ms: seq<Option<nat>>): set<nat> {
    set m | m in ms && m.Some? :: m.value
  }

  predicate Paired(ms: seq<Option<nat>>, n: nat) {
    forall i | 0 <= i < |ms| :: ms[i].Some? ==> ms[i].value < n
  }

  predicate Bounded(us: seq<nat>, n: nat) {
    forall i | 0 <= i < |us| :: us[i] < n
  }

  function Matches(inner: seq<Part>, objs: seq<Part>): (ms: seq<Option<nat>>)
    ensures |ms| == |inner| && Paired(ms, |objs|)
  {
    if inner == [] then []
    else
      var ms := Matches(inner[..|inner| - 1], objs);
      ms + [Match(inner[|inner| - 1], objs, Claims(ms))]
  }

  /** The entry for an ASpace part; k is the length of the list so far. */
  function Entry(p: Part, m: Option<nat>, objs: seq<Part>, k: nat): Part
    requires m.Some? ==> m.value < |objs|
  {
    var d := if m.Some? then objs[m.value] else NO_PART;
    var kaltura := Or(p.kalturaId, Or(p.entryId, d.kalturaId));
    var path := if m.Some? then ObjectPath(d) else Null;
    Part(
      if p.order.Str? then p.order else Str(Digits(k + 1)),
      if Truthy(p.title) then p.title else if m.Some? then d.file else Null,
      Or(p.mime, OrNull(d.dipMime)),
      if p.caption == Absent then Null else p.caption,
      if Truthy(kaltura) then kaltura else Absent, Absent,
      if Truthy(path) then path else Absent,
      if Truthy(d.thumbnail) then d.thumbnail else Absent,
      Absent, Absent, Absent, Absent)
  }

  /** The entry for a DIP object that no part claimed. */
  function DipEntry(d: Part, k: nat): Part {
    var kaltura := Or(d.kalturaId, d.entryId);
    Part(
      Str(Digits(k + 1)), OrNull(d.file), OrNull(d.dipMime), Null,
      if Truthy(kaltura) then kaltura else Absent, Absent,
      if Truthy(ObjectPath(d)) then ObjectPath(d) else Absent,
      if Truthy(d.thumbnail) then d.thumbnail else Absent,
      Absent, Absent, Absent, Absent)
  }

  function Unclaimed(n: nat, claimed: set<nat>): (us: seq<nat>)
    ensures Bounded(us, n)
  {
    if n == 0 then []
    else if n - 1 in claimed then Unclaimed(n - 1, claimed)
    else Unclaimed(n - 1, claimed) + [n - 1]
  }

  function Entries(inner: seq<Part>, ms: seq<Option<nat>>, objs: seq<Part>): (out: seq<Part>)
    requires |ms| == |inner| && Paired(ms, |objs|)
    ensures |out| == |inner|
  {
    seq(|inner|, i requires 0 <= i < |inner| => Entry(inner[i], ms[i], objs, i))
  }

  function Appended(objs: seq<Part>, us: seq<nat>, k: nat): (out: seq<Part>)
    requires Bounded(us, |objs|)
    ensures |out| == |us|
  {
    seq(|us|, j requires 0 <= j < |us| => DipEntry(objs[us[j]], k + j))
  }

  function MergedWith(inner: seq<Part>, objs: seq<Part>): seq<Part> {
    var ms := Matches(inner, objs);
    Entries(inner, ms, objs) + Appended(objs, Unclaimed(|objs|, Claims(ms)), |inner|)
  }

  /** merge_parts. */
  function Merged(inner: seq<Part>, dip: seq<Dip>): seq<Part> {
    MergedWith(inner, Objects(dip))
  }

  // --- the loop that builds it -----------------------------------------------------------------

  lemma {:induction false} MatchesSnoc(inner: seq<Part>, p: Part, objs: seq<Part>)
    ensures Matches(inner + [p], objs) == Matches(inner, objs) + [Match(p, objs, Claims(Matches(inner, objs)))]
  {
    assert (inner + [p])[..|inner|] == inner;
  }

  lemma {:induction false} EntriesSnoc(inner: seq<Part>, p: Part, ms: seq<Option<nat>>, m: Option<nat>, objs: seq<Part>)
    requires |ms| == |inner| && Paired(ms, |objs|) && (m.Some? ==> m.value < |objs|)
    ensures Entries(inner + [p], ms + [m], objs) == Entries(inner, ms, objs) + [Entry(p, m, objs, |inner|)]
  {
  }

  lemma {:induction false} AppendedSnoc(objs: seq<Part>, us: seq<nat>, u: nat, k: nat)
    requires Bounded(us, |objs|) && u < |objs|
    ensures Appended(objs, us + [u], k) == Appended(objs, us, k) + [DipEntry(objs[u], k + |us|)]
  {
  }

  function Get(m: map<string, nat>, key: string): Option<nat> {
    if key in m then Some(m[key]) else None
  }

  ghost predicate Indexes(byFile: map<string, nat>, byFileId: map<string, nat>, objs: seq<Part>, n: nat)
    requires n <= |objs|
  {
    forall key :: Get(byFile, key) == FirstFile(objs, key, n) && Get(byFileId, key) == FirstFileId(objs, key, n)
  }

  method IndexFiles(objs: seq<Part>) returns (byFile: map<string, nat>, byFileId: map<string, nat>)
    ensures Indexes(byFile, byFileId, objs, |objs|)
  {
    byFile, byFileId := map[], map[];
    var n := 0;
    while n < |objs|
      invariant 0 <= n <= |objs| && Indexes(byFile, byFileId, objs, n)
    {
      var p := objs[n];
      if p.file != Absent && FileKey(p.file) !in byFile { byFile := byFile[FileKey(p.file) := n]; }
      if p.fileId != Absent && FileKey(p.fileId) !in byFileId { byFileId := byFileId[FileKey(p.fileId) := n]; }
      n := n + 1;
    }
  }

  lemma {:induction false} PairStep(inner: seq<Part>, i: nat, objs: seq<Part>)
    requires i < |inner|
    ensures Matches(inner[..i + 1], objs) ==
            Matches(inner[..i], objs) + [Match(inner[i], objs, Claims(Matches(inner[..i], objs)))]
  {
    assert inner[..i + 1] == inner[..i] + [inner[i]];
    MatchesSnoc(inner[..i], inner[i], objs);
  }

  lemma {:induction false} EntryStep(inner: seq<Part>, i: nat, ms: seq<Option<nat>>, m: Option<nat>, objs: seq<Part>)
    requires i < |inner| && |ms| == i && Paired(ms, |objs|) && (m.Some? ==> m.value < |objs|)
    ensures Entries(inner[..i + 1], ms + [m], objs) == Entries(inner[..i], ms, objs) + [Entry(inner[i], m, objs, i)]
  {
    assert inner[..i + 1] == inner[..i] + [inner[i]];
    EntriesSnoc(inner[..i], inner[i], ms, m, objs);
  }

  method Pair(p: Part, byFile: map<string, nat>, byFileId: map<string, nat>, objs: seq<Part>, claimed: set<nat>)
      returns (m: Option<nat>)
    requires Indexes(byFile, byFileId, objs, |objs|)
    ensures m == Match(p, objs, claimed)
  {
    m := Get(byFile, FileKey(p.title));
    if m.None? { m := Get(byFileId, StripExt(p.title)); }
    if m.None? && !Truthy(p.title) { m := FirstUnclaimed(|objs|, claimed); }
  }

  /** The first loop: the ASpace parts, each with the file it claims. */
  method PairParts(inner: seq<Part>, objs: seq<Part>) returns (out: seq<Part>, claimed: set<nat>)
    ensures claimed == Claims(Matches(inner, objs)) && out == Entries(inner, Matches(inner, objs), objs)
  {
    var byFile, byFileId := IndexFiles(objs);
    claimed, out := {}, [];
    ghost var ms: seq<Option<nat>> := [];
    var i := 0;
    while i < |inner|
      invariant 0 <= i <= |inner| && ms == Matches(inner[..i], objs) && claimed == Claims(ms)
      invariant out == Entries(inner[..i], ms, objs)
    {
      var p := inner[i];
      var paired := Pair(p, byFile, byFileId, objs, claimed);
      PairStep(inner, i, objs);
      ClaimsSnoc(ms, paired);
      EntryStep(inner, i, ms, paired, objs);
      if paired.Some? { claimed := claimed + {paired.value}; }
      ms := ms + [paired];
      out := out + [Entry(p, paired, objs, |out|)];
      i := i + 1;
    }
    assert inner[..i] == inner;
  }

  lemma {:induction false} AppendStep(objs: seq<Part>, us: seq<nat>, n: nat, claimed: set<nat>, merged: seq<Part>,
                                      out: seq<Part>, k: nat)
    requires n < |objs| && us == Unclaimed(n, claimed) && out == merged + Appended(objs, us, k) && |merged| == k
    ensures n !in claimed ==>
      us + [n] == Unclaimed(n + 1, claimed) && out + [DipEntry(objs[n], |out|)] == merged + Appended(objs, us + [n], k)
    ensures n in claimed ==> us == Unclaimed(n + 1, claimed)
  {
    if n !in claimed {
      AppendedSnoc(objs, us, n, k);
      Regroup(merged, Appended(objs, us, k), DipEntry(objs[n], |out|));
    }
  }

  lemma Regroup<T>(a: seq<T>, b: seq<T>, x: T)
    ensures a + (b + [x]) == (a + b) + [x]
  {
  }

  /** The second loop: the DIP objects nobody claimed. */
  method AppendRest(merged: seq<Part>, objs: seq<Part>, claimed: set<nat>) returns (out: seq<Part>)
    ensures out == merged + Appended(objs, Unclaimed(|objs|, claimed), |merged|)
  {
    out := merged;
    ghost var us: seq<nat> := [];
    var n := 0;
    while n < |objs|
      invariant 0 <= n <= |objs| && us == Unclaimed(n, claimed)
      invariant out == merged + Appended(objs, us, |merged|)
    {
      AppendStep(objs, us, n, claimed, merged, out, |merged|);
      if n !in claimed {
        out := out + [DipEntry(objs[n], |out|)];
        us := us + [n];
      }
      n := n + 1;
    }
  }

  method MergeParts(inner: seq<Part>, dip: seq<Dip>) returns (out: seq<Part>)
    ensures out == Merged(inner, dip)
  {
    var objs := Objects(dip);
    var paired, claimed := PairParts(inner, objs);
    out := AppendRest(paired, objs, claimed);
  }

  lemma ClaimsSnoc(ms: seq<Option<nat>>, m: Option<nat>)
    ensures Claims(ms + [m]) == Claims(ms) + if m.Some? then {m.value} else {}
  {
  }

  // --- conservation ------------------------------------------------------------------------------------

  lemma {:induction false} UnclaimedCount(n: nat, claimed: set<nat>)
    requires forall c | c in claimed :: c < n
    ensures |Unclaimed(n, claimed)| == n - |claimed|
  {
    if n == 0 {
      assert claimed == {};
    } else if n - 1 in claimed {
      UnclaimedCount(n - 1, claimed - {n - 1});
      UnclaimedSame(n - 1, claimed, claimed - {n - 1});
    } else {
      UnclaimedCount(n - 1, claimed);
    }
  }

  lemma {:induction false} UnclaimedSame(n: nat, a: set<nat>, b: set<nat>)
    requires forall i: nat | i < n :: i in a <==> i in b
    ensures Unclaimed(n, a) == Unclaimed(n, b)
  {
    if n > 0 { UnclaimedSame(n - 1, a, b); }
  }

  lemma {:induction false} ObjectsAre(dip: seq<Dip>)
    ensures forall d | d in dip && !d.txt :: d.part in Objects(dip)
    ensures forall o | o in Objects(dip) :: exists d :: d in dip && !d.txt && d.part == o
  {
    if dip != [] {
      var last := dip[|dip| - 1];
      ObjectsAre(dip[..|dip| - 1]);
      forall d | d in dip && !d.txt ensures d.part in Objects(dip) {
        assert d in dip[..|dip| - 1] || d == last;
      }
      forall o | o in Objects(dip) ensures exists d :: d in dip && !d.txt && d.part == o {
        if o !in Objects(dip[..|dip| - 1]) { assert last in dip; }
      }
    }
  }

  /** CONSERVATION, lengths and order: one entry for each ASpace part, in their order and with
      their own titles, MIMEs, captions and orders, then one for each DIP object nobody claimed. */
  lemma MergeKeepsInner(inner: seq<Part>, dip: seq<Dip>)
    ensures |Merged(inner, dip)| == |inner| + |Objects(dip)| - |Claims(Matches(inner, Objects(dip)))|
    ensures forall i | 0 <= i < |inner| :: var e := Merged(inner, dip)[i];
      && (Truthy(inner[i].title) ==> e.title == inner[i].title)
      && (Truthy(inner[i].mime) ==> e.mime == inner[i].mime)
      && (inner[i].order.Str? ==> e.order == inner[i].order)
      && (inner[i].caption != Absent ==> e.caption == inner[i].caption)
      && (Truthy(inner[i].kalturaId) ==> e.kalturaId == inner[i].kalturaId)
  {
    var objs := Objects(dip);
    var ms := Matches(inner, objs);
    UnclaimedCount(|objs|, Claims(ms));
  }

  lemma {:induction false} EntryAt(inner: seq<Part>, objs: seq<Part>, i: nat)
    requires i < |inner|
    ensures i < |MergedWith(inner, objs)| && MergedWith(inner, objs)[i] == Entry(inner[i], Matches(inner, objs)[i], objs, i)
  {
  }

  /** Every entry's path is that of some DIP object. */
  lemma {:induction false} PathHasObject(inner: seq<Part>, objs: seq<Part>, i: nat)
    requires i < |MergedWith(inner, objs)| && Truthy(MergedWith(inner, objs)[i].objectPath)
    ensures exists u :: 0 <= u < |objs| && ObjectPath(objs[u]) == MergedWith(inner, objs)[i].objectPath
  {
    var ms := Matches(inner, objs);
    var us := Unclaimed(|objs|, Claims(ms));
    if i < |inner| {
      EntryAt(inner, objs, i);
      assert ms[i].Some? && ObjectPath(objs[ms[i].value]) == MergedWith(inner, objs)[i].objectPath;
    } else {
      var j := i - |inner|;
      AppendedIs(inner, objs, us, j);
      assert ObjectPath(objs[us[j]]) == MergedWith(inner, objs)[i].objectPath;
    }
  }

  /** Every DIP object's path is that of some entry. */
  lemma {:induction false} ObjectHasEntry(inner: seq<Part>, objs: seq<Part>, u: nat)
    requires u < |objs| && Truthy(ObjectPath(objs[u]))
    ensures exists i :: 0 <= i < |MergedWith(inner, objs)| && MergedWith(inner, objs)[i].objectPath == ObjectPath(objs[u])
  {
    var ms := Matches(inner, objs);
    if u in Claims(ms) {
      var i :| 0 <= i < |ms| && ms[i] == Some(u);
      assert Entries(inner, ms, objs)[i].objectPath == ObjectPath(objs[u]);
      assert MergedWith(inner, objs)[i].objectPath == ObjectPath(objs[u]);
    } else {
      UnclaimedHas(|objs|, Claims(ms), u);
      RestHasEntry(inner, objs, u);
    }
  }

  lemma TailAt<T>(a: seq<T>, b: seq<T>, j: nat)
    requires j < |b|
    ensures (a + b)[|a| + j] == b[j]
  {
  }

  lemma {:induction false} AppendedIs(inner: seq<Part>, objs: seq<Part>, us: seq<nat>, j: nat)
    requires us == Unclaimed(|objs|, Claims(Matches(inner, objs))) && j < |us|
    ensures |inner| + j < |MergedWith(inner, objs)|
    ensures MergedWith(inner, objs)[|inner| + j] == DipEntry(objs[us[j]], |inner| + j)
  {
    TailAt(Entries(inner, Matches(inner, objs), objs), Appended(objs, us, |inner|), j);
  }

  lemma {:induction false} RestHasEntry(inner: seq<Part>, objs: seq<Part>, u: nat)
    requires u < |objs| && Truthy(ObjectPath(objs[u])) && u in Unclaimed(|objs|, Claims(Matches(inner, objs)))
    ensures exists i :: 0 <= i < |MergedWith(inner, objs)| && MergedWith(inner, objs)[i].objectPath == ObjectPath(objs[u])
  {
    var us := Unclaimed(|objs|, Claims(Matches(inner, objs)));
    var j :| 0 <= j < |us| && us[j] == u;
    AppendedIs(inner, objs, us, j);
    var i := |inner| + j;
    assert MergedWith(inner, objs)[i].objectPath == DipEntry(objs[u], i).objectPath;
  }

  /** CONSERVATION, files: the object paths of the manifest are exactly the normalised paths of
      the DIP entries that are not sidecars. */
  lemma {:induction false} MergeKeepsFiles(inner: seq<Part>, dip: seq<Dip>, path: Text)
    requires Truthy(path)
    ensures (exists e :: e in Merged(inner, dip) && e.objectPath == path) <==>
            (exists d :: d in dip && !d.txt && ObjectPath(d.part) == path)
  {
    ObjectsAre(dip);
    if e :| e in Merged(inner, dip) && e.objectPath == path {
      var i :| 0 <= i < |Merged(inner, dip)| && Merged(inner, dip)[i] == e;
      PathHasObject(inner, Objects(dip), i);
      var u :| 0 <= u < |Objects(dip)| && ObjectPath(Objects(dip)[u]) == path;
      assert Objects(dip)[u] in Objects(dip);
    }
    if d :| d in dip && !d.txt && ObjectPath(d.part) == path {
      var u :| 0 <= u < |Objects(dip)| && Objects(dip)[u] == d.part;
      ObjectHasEntry(inner, Objects(dip), u);
      var i :| 0 <= i < |Merged(inner, dip)| && Merged(inner, dip)[i].objectPath == path;
      assert Merged(inner, dip)[i] in Merged(inner, dip);
    }
  }

  // --- who is paired with whom ----------------------------------------------------------------------------

  lemma {:induction false} NoneIn(s: string, c: char, j: nat)
    requires c !in s && j < |s|
    ensures s[j] != c
  {
  }

  lemma {:induction false} LastDot(stem: string, ext: string)
    requires '.' !in ext
    ensures LastIndexOf(stem + "." + ext, '.') == |stem|
  {
    var k := stem + "." + ext;
    forall j | |stem| < j < |k| ensures k[j] != '.' {
      assert k[j] == ext[j - |stem| - 1];
      NoneIn(ext, '.', j - |stem| - 1);
    }
    LastIndexIs(k, '.', |stem|);
  }

  /** The key of a name is the name without the blanks at its ends, its capitals made small. */
  lemma FileKeyIs(pre: string, core: string, post: string)
    requires AllBlank(pre) && AllBlank(post) && BlankFreeEnds(core)
    ensures var key := FileKey(Str(pre + core + post));
      && |key| == |core|
      && forall i | 0 <= i < |core| ::
           if 65 <= core[i] as int <= 90 then key[i] as int == core[i] as int + 32 else key[i] == core[i]
    ensures forall t: Text | !t.Str? :: FileKey(t) == ""
  {
    TrimIs(pre, core, post);
  }

  /** The stem is what stands before the last dot, unless nothing does or there is no dot. */
  lemma {:induction false} StemIs(t: Text, stem: string, ext: string)
    requires '.' !in ext && stem != "" && FileKey(t) == stem + "." + ext
    ensures StripExt(t) == stem
  {
    LastDot(stem, ext);
    assert (stem + "." + ext)[..|stem|] == stem;
  }

  lemma {:induction false} NoneLast(s: string, c: char)
    requires c !in s
    ensures LastIndexOf(s, c) == -1
  {
    if s != "" { NoneLast(s[..|s| - 1], c); }
  }

  lemma {:induction false} NoDot(t: Text)
    requires '.' !in FileKey(t)
    ensures StripExt(t) == FileKey(t)
  {
    NoneLast(FileKey(t), '.');
  }

  lemma {:induction false} OnlyLeadingDot(t: Text, ext: string)
    requires '.' !in ext && FileKey(t) == "." + ext
    ensures StripExt(t) == FileKey(t)
  {
    LastDot("", ext);
    assert "" + "." + ext == "." + ext;
  }

  /** A path's file name gets the uuid in front, unless it has it already; its directory stays. */
  lemma PrefixedIs(dir: string, base: string, uuid: string)
    requires '/' !in base && (dir == "" || dir[|dir| - 1] == '/')
    ensures |base| >= |uuid| + 1 && base[..|uuid|] == uuid && base[|uuid|] == '-' ==> Prefixed(dir + base, uuid) == dir + base
    ensures !(|base| >= |uuid| + 1 && base[..|uuid|] == uuid && base[|uuid|] == '-') ==>
      Prefixed(dir + base, uuid) == dir + (uuid + "-" + base)
  {
    var path, stem := dir + base, uuid + "-";
    if dir != "" {
      forall j | |dir| - 1 < j < |path| ensures path[j] != '/' { assert path[j] == base[j - |dir|]; }
      LastIndexIs(path, '/', |dir| - 1);
    } else {
      assert path == base;
      NoneLast(path, '/');
    }
    assert path[..|dir|] == dir && path[|dir|..] == base;
    assert stem[..|uuid|] == uuid && stem[|uuid|] == '-';
    if |base| >= |uuid| + 1 && base[..|uuid|] == uuid && base[|uuid|] == '-' {
      assert base[..|stem|] == stem;
    }
  }

  /** The order of an unnumbered entry is its place in the list, in decimal. */
  function Value(digits: string): int {
    if digits == "" then 0 else 10 * Value(digits[..|digits| - 1]) + (digits[|digits| - 1] as int - 48)
  }

  lemma {:induction false} DigitsAre(n: nat)
    ensures Digits(n) != "" && Value(Digits(n)) == n
    ensures forall i | 0 <= i < |Digits(n)| :: '0' <= Digits(n)[i] <= '9'
    ensures n > 0 ==> Digits(n)[0] != '0'
  {
    var s := Digits(n);
    var d := [('0' as int + n % 10) as char];
    if n < 10 {
      assert s == d && s[..|s| - 1] == "";
    } else {
      DigitsAre(n / 10);
      assert s == Digits(n / 10) + d && s[..|s| - 1] == Digits(n / 10);
    }
  }

  /** Where the fields of a part's entry come from: the part itself, and then the object it is paired
      with. */
  lemma EntryIs(p: Part, m: Option<nat>, objs: seq<Part>, k: nat)
    requires m.Some? ==> m.value < |objs|
    ensures var e := Entry(p, m, objs, k); var d := if m.Some? then objs[m.value] else NO_PART;
      && e.order == (if p.order.Str? then p.order else Str(Digits(k + 1)))
      && (Truthy(p.title) ==> e.title == p.title) && (!Truthy(p.title) && m.Some? ==> e.title == d.file)
      && (!Truthy(p.title) && m.None? ==> e.title == Null)
      && (Truthy(p.mime) ==> e.mime == p.mime) && (!Truthy(p.mime) && Truthy(d.dipMime) ==> e.mime == d.dipMime)
      && (!Truthy(p.mime) && !Truthy(d.dipMime) ==> e.mime == Null)
      && (p.caption.Str? ==> e.caption == p.caption) && (!p.caption.Str? ==> e.caption == Null)
      && (Truthy(p.kalturaId) ==> e.kalturaId == p.kalturaId)
      && (!Truthy(p.kalturaId) && Truthy(p.entryId) ==> e.kalturaId == p.entryId)
      && (!Truthy(p.kalturaId) && !Truthy(p.entryId) && Truthy(d.kalturaId) ==> e.kalturaId == d.kalturaId)
      && (!Truthy(p.kalturaId) && !Truthy(p.entryId) && !Truthy(d.kalturaId) ==> e.kalturaId == Absent)
      && e.entryId == e.file == e.fileId == e.uuid == e.dipMime == Absent
  {
  }

  lemma DipEntryIs(d: Part, k: nat)
    ensures var e := DipEntry(d, k);
      && e.order == Str(Digits(k + 1)) && e.caption == Null
      && e.title == (if Truthy(d.file) then d.file else Null) && e.mime == (if Truthy(d.dipMime) then d.dipMime else Null)
      && (Truthy(d.kalturaId) ==> e.kalturaId == d.kalturaId)
      && (!Truthy(d.kalturaId) && Truthy(d.entryId) ==> e.kalturaId == d.entryId)
      && (!Truthy(d.kalturaId) && !Truthy(d.entryId) ==> e.kalturaId == Absent)
      && Carries(e, d) && e.entryId == e.file == e.fileId == e.uuid == e.dipMime == Absent
  {
  }

  /** The objects left over are those that no part claimed, in order. */
  lemma {:induction false} UnclaimedAre(n: nat, claimed: set<nat>, u: nat)
    ensures u in Unclaimed(n, claimed) <==> u < n && u !in claimed
    ensures forall i, j | 0 <= i < j < |Unclaimed(n, claimed)| :: Unclaimed(n, claimed)[i] < Unclaimed(n, claimed)[j]
  {
    if n > 0 {
      UnclaimedAre(n - 1, claimed, u);
      var rest := Unclaimed(n - 1, claimed);
      forall i | 0 <= i < |rest| ensures rest[i] < n - 1 { assert rest[i] in rest; }
    }
  }

  predicate HasFile(d: Part, key: string) {
    d.file != Absent && FileKey(d.file) == key
  }

  predicate HasFileId(d: Part, key: string) {
    d.fileId != Absent && FileKey(d.fileId) == key
  }

  ghost predicate FirstByFile(objs: seq<Part>, key: string, u: nat) {
    u < |objs| && HasFile(objs[u], key) && forall v | 0 <= v < u :: !HasFile(objs[v], key)
  }

  ghost predicate FirstByFileId(objs: seq<Part>, key: string, u: nat) {
    u < |objs| && HasFileId(objs[u], key) && forall v | 0 <= v < u :: !HasFileId(objs[v], key)
  }

  ghost predicate NoFile(objs: seq<Part>, key: string) {
    forall v | 0 <= v < |objs| :: !HasFile(objs[v], key)
  }

  ghost predicate NoFileId(objs: seq<Part>, key: string) {
    forall v | 0 <= v < |objs| :: !HasFileId(objs[v], key)
  }

  lemma {:induction false} MatchByFile(p: Part, objs: seq<Part>, claimed: set<nat>, u: nat)
    requires FirstByFile(objs, FileKey(p.title), u)
    ensures Match(p, objs, claimed) == Some(u)
  {
    var i := FirstFile(objs, FileKey(p.title), |objs|);
    assert i.Some? && i.value <= u && HasFile(objs[i.value], FileKey(p.title));
  }

  /** by_file_id holds the first object with the key, like by_file. */
  lemma {:induction false} FirstFileIdIs(objs: seq<Part>, key: string, n: nat)
    requires n <= |objs|
    ensures var i := FirstFileId(objs, key, n);
      && (i.Some? ==> HasFileId(objs[i.value], key))
      && forall j | 0 <= j < n && HasFileId(objs[j], key) :: i.Some? && i.value <= j
  {
    if n > 0 { FirstFileIdIs(objs, key, n - 1); }
  }

  lemma {:induction false} MatchByFileId(p: Part, objs: seq<Part>, claimed: set<nat>, u: nat)
    requires NoFile(objs, FileKey(p.title)) && FirstByFileId(objs, StripExt(p.title), u)
    ensures Match(p, objs, claimed) == Some(u)
  {
    var f := FirstFile(objs, FileKey(p.title), |objs|);
    assert f.Some? ==> HasFile(objs[f.value], FileKey(p.title));
    FirstFileIdIs(objs, StripExt(p.title), |objs|);
  }

  lemma {:induction false} MatchInTurn(p: Part, objs: seq<Part>, claimed: set<nat>)
    requires NoFile(objs, FileKey(p.title)) && NoFileId(objs, StripExt(p.title))
    ensures Truthy(p.title) ==> Match(p, objs, claimed) == None
    ensures !Truthy(p.title) ==> forall u: nat | u < |objs| && u !in claimed && (forall v: nat | v < u :: v in claimed) ::
      Match(p, objs, claimed) == Some(u)
  {
    var f := FirstFile(objs, FileKey(p.title), |objs|);
    assert f.Some? ==> HasFile(objs[f.value], FileKey(p.title));
    FirstFileIdIs(objs, StripExt(p.title), |objs|);
  }

  /** The entry carries the object's normalised path and its thumbnail, where it has them. */
  predicate Carries(e: Part, d: Part) {
    && e.objectPath == (if Truthy(ObjectPath(d)) then ObjectPath(d) else Absent)
    && e.thumbnail == (if Truthy(d.thumbnail) then d.thumbnail else Absent)
  }

  /** The objects that the second loop appends, by index. */
  function Left(inner: seq<Part>, objs: seq<Part>): seq<nat> {
    Unclaimed(|objs|, Claims(Matches(inner, objs)))
  }

  lemma {:induction false} NotUnclaimed(n: nat, claimed: set<nat>, u: nat)
    requires u in claimed
    ensures u !in Unclaimed(n, claimed)
  {
    if n > 0 { NotUnclaimed(n - 1, claimed, u); }
  }

  lemma {:induction false} PairedAt(inner: seq<Part>, objs: seq<Part>, i: nat, u: nat)
    requires i < |inner| && u < |objs| && Match(inner[i], objs, Claims(Matches(inner[..i], objs))) == Some(u)
    ensures Carries(MergedWith(inner, objs)[i], objs[u]) && u !in Left(inner, objs)
  {
    MatchAt(inner, objs, i);
    var ms := Matches(inner, objs);
    assert ms[i] == Some(u) && Some(u) in ms;
    assert u in Claims(ms);
    NotUnclaimed(|objs|, Claims(ms), u);
    EntryAt(inner, objs, i);
  }

  /** PAIRING BY NAME. A part is paired with the first file of its title's name: its entry carries
      that file's path, and the file is not listed again. */
  lemma {:induction false} PairedByFile(inner: seq<Part>, dip: seq<Dip>, i: nat, u: nat)
    requires i < |inner| && FirstByFile(Objects(dip), FileKey(inner[i].title), u)
    ensures Carries(Merged(inner, dip)[i], Objects(dip)[u]) && u !in Left(inner, Objects(dip))
  {
    MatchByFile(inner[i], Objects(dip), Claims(Matches(inner[..i], Objects(dip))), u);
    PairedAt(inner, Objects(dip), i, u);
  }

  /** PAIRING BY STEM. A part whose title `stem.ext` is the name of no file is paired with the first
      file whose id is the stem: the access copy in another format. */
  lemma {:induction false} PairedByStem(inner: seq<Part>, dip: seq<Dip>, i: nat, u: nat, stem: string, ext: string)
    requires i < |inner| && stem != "" && '.' !in ext && FileKey(inner[i].title) == stem + "." + ext
    requires NoFile(Objects(dip), FileKey(inner[i].title)) && FirstByFileId(Objects(dip), stem, u)
    ensures Carries(Merged(inner, dip)[i], Objects(dip)[u]) && u !in Left(inner, Objects(dip))
  {
    StemIs(inner[i].title, stem, ext);
    MatchByFileId(inner[i], Objects(dip), Claims(Matches(inner[..i], Objects(dip))), u);
    PairedAt(inner, Objects(dip), i, u);
  }

  lemma UnpairedAt(inner: seq<Part>, objs: seq<Part>, i: nat)
    requires i < |inner| && Match(inner[i], objs, Claims(Matches(inner[..i], objs))) == None
    ensures Carries(MergedWith(inner, objs)[i], NO_PART)
  {
    MatchAt(inner, objs, i);
    EntryAt(inner, objs, i);
  }

  /** A titled part that no file answers to keeps its entry, without a path; an untitled one takes the
      first file that no part before it has claimed. */
  lemma {:induction false} PairedInTurn(inner: seq<Part>, dip: seq<Dip>, i: nat)
    requires i < |inner| && NoFile(Objects(dip), FileKey(inner[i].title)) && NoFileId(Objects(dip), StripExt(inner[i].title))
    ensures Truthy(inner[i].title) ==> Carries(Merged(inner, dip)[i], NO_PART)
    ensures !Truthy(inner[i].title) ==> forall u: nat | u < |Objects(dip)|
        && u in Left(inner[..i], Objects(dip)) && (forall v: nat | v < u :: v !in Left(inner[..i], Objects(dip))) ::
      Carries(Merged(inner, dip)[i], Objects(dip)[u]) && u !in Left(inner, Objects(dip))
  {
    var objs := Objects(dip);
    var claimed := Claims(Matches(inner[..i], objs));
    MatchInTurn(inner[i], objs, claimed);
    if Truthy(inner[i].title) {
      UnpairedAt(inner, objs, i);
    } else {
      forall u: nat | u < |objs| && u in Left(inner[..i], objs) && (forall v: nat | v < u :: v !in Left(inner[..i], objs))
        ensures Carries(Merged(inner, dip)[i], objs[u]) && u !in Left(inner, objs)
      {
        if u in claimed { NotUnclaimed(|objs|, claimed, u); }
        forall v: nat | v < u ensures v in claimed {
          if v !in claimed { UnclaimedHas(|objs|, claimed, v); }
        }
        PairedAt(inner, objs, i, u);
      }
    }
  }

  // --- idempotence ----------------------------------------------------------------------------------------

  /** A file name that survives the round through an entry's title: null or truthy. */
  predicate Named(file: Text) {
    file == Null || Truthy(file)
  }

  /** Every file is named, and no two names are alike; one of them may be blank. */
  ghost predicate DistinctFiles(objs: seq<Part>) {
    && (forall i | 0 <= i < |objs| :: Named(objs[i].file))
    && (forall i, j | 0 <= i < j < |objs| :: FileKey(objs[i].file) != FileKey(objs[j].file))
  }

  lemma {:induction false} BlankKey(t: Text)
    ensures !Truthy(t) ==> FileKey(t) == "" && StripExt(t) == ""
  {
  }

  lemma {:induction false} FirstFileIs(objs: seq<Part>, u: nat)
    requires DistinctFiles(objs) && u < |objs|
    ensures FirstFile(objs, FileKey(objs[u].file), |objs|) == Some(u)
  {
    var i := FirstFile(objs, FileKey(objs[u].file), |objs|);
    assert i.Some? && i.value <= u;
    assert FileKey(objs[i.value].file) == FileKey(objs[u].file);
  }

  /** A merged entry finds its own file again, and is its own merge. */
  lemma {:induction false} Rematch(p: Part, objs: seq<Part>, claimed: set<nat>, k: nat)
    requires DistinctFiles(objs)
    ensures var m := Match(p, objs, claimed); var e := Entry(p, m, objs, k);
      Match(e, objs, claimed) == m && Entry(e, m, objs, k) == e
  {
    var m := Match(p, objs, claimed);
    if !Truthy(p.title) {
      BlankKey(p.title);
      if m.Some? { FirstFileIs(objs, m.value); }
    }
  }

  lemma {:induction false} RematchDip(objs: seq<Part>, u: nat, claimed: set<nat>, k: nat, k': nat)
    requires DistinctFiles(objs) && u < |objs|
    ensures var e := DipEntry(objs[u], k); Match(e, objs, claimed) == Some(u) && Entry(e, Some(u), objs, k') == e
  {
    FirstFileIs(objs, u);
  }

  /** Entries that are their own merge: each is paired with ms. */
  ghost predicate Fixed(es: seq<Part>, ms: seq<Option<nat>>, objs: seq<Part>) {
    |ms| == |es| && Paired(ms, |objs|) && Matches(es, objs) == ms && Entries(es, ms, objs) == es
  }

  lemma FixedSnoc(es: seq<Part>, ms: seq<Option<nat>>, objs: seq<Part>, e: Part, m: Option<nat>)
    requires Fixed(es, ms, objs) && Match(e, objs, Claims(ms)) == m && Entry(e, m, objs, |es|) == e
    ensures Fixed(es + [e], ms + [m], objs)
  {
    MatchesSnoc(es, e, objs);
    EntriesSnoc(es, e, ms, m, objs);
  }

  lemma InnerStep(inner: seq<Part>, p: Part, objs: seq<Part>)
    requires DistinctFiles(objs) && Fixed(Entries(inner, Matches(inner, objs), objs), Matches(inner, objs), objs)
    ensures Fixed(Entries(inner + [p], Matches(inner + [p], objs), objs), Matches(inner + [p], objs), objs)
  {
    var ms := Matches(inner, objs);
    var m := Match(p, objs, Claims(ms));
    MatchesSnoc(inner, p, objs);
    EntriesSnoc(inner, p, ms, m, objs);
    Rematch(p, objs, Claims(ms), |inner|);
    FixedSnoc(Entries(inner, ms, objs), ms, objs, Entry(p, m, objs, |inner|), m);
  }

  lemma {:induction false} InnerAgain(inner: seq<Part>, objs: seq<Part>)
    requires DistinctFiles(objs)
    ensures Fixed(Entries(inner, Matches(inner, objs), objs), Matches(inner, objs), objs)
  {
    if inner != [] {
      assert inner == inner[..|inner| - 1] + [inner[|inner| - 1]];
      InnerAgain(inner[..|inner| - 1], objs);
      InnerStep(inner[..|inner| - 1], inner[|inner| - 1], objs);
    }
  }

  function Somes(us: seq<nat>): seq<Option<nat>> {
    seq(|us|, i requires 0 <= i < |us| => Some(us[i]))
  }

  lemma AppendedSplit(base: seq<Part>, ms: seq<Option<nat>>, objs: seq<Part>, us: seq<nat>, u: nat)
    requires Bounded(us, |objs|) && u < |objs|
    ensures base + Appended(objs, us + [u], |base|) ==
            (base + Appended(objs, us, |base|)) + [DipEntry(objs[u], |base| + |us|)]
    ensures ms + Somes(us + [u]) == (ms + Somes(us)) + [Some(u)]
  {
    AppendedSnoc(objs, us, u, |base|);
    Regroup(base, Appended(objs, us, |base|), DipEntry(objs[u], |base| + |us|));
    assert Somes(us + [u]) == Somes(us) + [Some(u)];
  }

  lemma AppendedStep(base: seq<Part>, ms: seq<Option<nat>>, objs: seq<Part>, us: seq<nat>, u: nat)
    requires DistinctFiles(objs) && Bounded(us, |objs|) && u < |objs|
    requires Fixed(base + Appended(objs, us, |base|), ms + Somes(us), objs)
    ensures Fixed(base + Appended(objs, us + [u], |base|), ms + Somes(us + [u]), objs)
  {
    var es := base + Appended(objs, us, |base|);
    RematchDip(objs, u, Claims(ms + Somes(us)), |base| + |us|, |es|);
    FixedSnoc(es, ms + Somes(us), objs, DipEntry(objs[u], |base| + |us|), Some(u));
    AppendedSplit(base, ms, objs, us, u);
  }

  lemma {:induction false} AppendedAgain(base: seq<Part>, ms: seq<Option<nat>>, objs: seq<Part>, us: seq<nat>)
    requires DistinctFiles(objs) && Bounded(us, |objs|) && Fixed(base, ms, objs)
    ensures Fixed(base + Appended(objs, us, |base|), ms + Somes(us), objs)
    decreases |us|
  {
    if us == [] {
      assert base + Appended(objs, us, |base|) == base && ms + Somes(us) == ms;
    } else {
      assert us == us[..|us| - 1] + [us[|us| - 1]];
      AppendedAgain(base, ms, objs, us[..|us| - 1]);
      AppendedStep(base, ms, objs, us[..|us| - 1], us[|us| - 1]);
    }
  }

  lemma AllClaimed(ms: seq<Option<nat>>, us: seq<nat>, n: nat)
    requires us == Unclaimed(n, Claims(ms))
    ensures Unclaimed(n, Claims(ms + Somes(us))) == []
  {
    var ms2 := ms + Somes(us);
    forall u: nat | u < n ensures u in Claims(ms2) {
      if u in Claims(ms) {
        var j :| 0 <= j < |ms| && ms[j] == Some(u);
        assert ms2[j] == Some(u);
      } else {
        UnclaimedHas(n, Claims(ms), u);
        var j :| 0 <= j < |us| && us[j] == u;
        assert ms2[|ms| + j] == Some(u);
      }
    }
    NoneUnclaimed(n, Claims(ms2));
  }

  lemma {:induction false} UnclaimedHas(n: nat, claimed: set<nat>, u: nat)
    requires u < n && u !in claimed
    ensures u in Unclaimed(n, claimed)
  {
    if u < n - 1 { UnclaimedHas(n - 1, claimed, u); }
  }

  lemma {:induction false} NoneUnclaimed(n: nat, claimed: set<nat>)
    requires forall u: nat | u < n :: u in claimed
    ensures Unclaimed(n, claimed) == []
  {
    if n > 0 { NoneUnclaimed(n - 1, claimed); }
  }

  /** IDEMPOTENCE. Merging the manifest with the same file list again changes nothing, whatever
      the ASpace parts are, so long as the DIP objects' file names are distinct. */
  lemma MergeIdempotent(inner: seq<Part>, dip: seq<Dip>)
    requires DistinctFiles(Objects(dip))
    ensures Merged(Merged(inner, dip), dip) == Merged(inner, dip)
  {
    var objs := Objects(dip);
    var ms := Matches(inner, objs);
    var es := Entries(inner, ms, objs);
    var us := Unclaimed(|objs|, Claims(ms));
    InnerAgain(inner, objs);
    AppendedAgain(es, ms, objs, us);
    AllClaimed(ms, us, |objs|);
  }

  lemma {:induction false} UnclaimedAll(n: nat)
    ensures |Unclaimed(n, {})| == n && forall i | 0 <= i < n :: Unclaimed(n, {})[i] == i
  {
    if n > 0 { UnclaimedAll(n - 1); }
  }

  /** With no ASpace parts the manifest lists the DIP objects. */
  lemma {:induction false} FromNothing(objs: seq<Part>)
    ensures var es := MergedWith([], objs);
      |es| == |objs| && forall j: nat | j < |objs| :: es[j] == DipEntry(objs[j], j)
  {
    UnclaimedAll(|objs|);
    assert Matches([], objs) == [] && Claims([]) == {};
    assert Entries([], [], objs) == [];
  }

  lemma {:induction false} MatchAt(es: seq<Part>, objs: seq<Part>, i: nat)
    requires i < |es|
    ensures Matches(es, objs)[i] == Match(es[i], objs, Claims(Matches(es[..i], objs)))
    decreases |es|
  {
    var init, last := es[..|es| - 1], es[|es| - 1];
    assert es == init + [last];
    MatchesSnoc(init, last, objs);
    if i < |init| {
      MatchAt(init, objs, i);
      assert init[..i] == es[..i];
    } else {
      assert es[..i] == init;
    }
  }

  lemma {:induction false} UnclaimedGrows(es: seq<Part>, objs: seq<Part>, u: nat)
    requires u < |objs| && u !in Claims(Matches(es, objs))
    ensures |MergedWith(es, objs)| > |es|
  {
    UnclaimedHas(|objs|, Claims(Matches(es, objs)), u);
  }

  lemma {:induction false} ClaimsAtMost(ms: seq<Option<nat>>)
    ensures |Claims(ms)| <= |ms|
  {
    if ms != [] {
      ClaimsAtMost(ms[..|ms| - 1]);
      ClaimsSnoc(ms[..|ms| - 1], ms[|ms| - 1]);
      assert ms == ms[..|ms| - 1] + [ms[|ms| - 1]];
    } else {
      assert Claims(ms) == {};
    }
  }

  /** The first i entries leave one of more than i objects unclaimed. */
  lemma {:induction false} SomethingFree(es: seq<Part>, objs: seq<Part>, i: nat)
    requires i <= |es| && i < |objs|
    ensures FirstUnclaimed(|objs|, Claims(Matches(es[..i], objs))).Some?
  {
    var ms := Matches(es[..i], objs);
    ClaimsAtMost(ms);
    UnclaimedCount(|objs|, Claims(ms));
    if FirstUnclaimed(|objs|, Claims(ms)).None? {
      NoneUnclaimed(|objs|, Claims(ms));
      assert false;
    }
  }

  /** An object without a file field is listed under a null title, which the second merge replaces
      by the name of whatever the entry is then paired with. */
  lemma {:induction false} UnnamedChanges(objs: seq<Part>, i: nat)
    requires i < |objs| && objs[i].file == Absent && FirstFile(objs, "", |objs|).None?
    ensures var es := MergedWith([], objs); MergedWith(es, objs) != es
  {
    var es := MergedWith([], objs);
    FromNothing(objs);
    assert es[i].title == Null;
    MatchAt(es, objs, i);
    SomethingFree(es, objs, i);
    var m := Matches(es, objs)[i];
    assert m.Some? && objs[m.value].file != Null;
    assert MergedWith(es, objs)[i] == Entry(es[i], m, objs, i);
  }

  ghost predicate AllByFile(es: seq<Part>, objs: seq<Part>) {
    forall k | 0 <= k < |es| :: FirstFile(objs, FileKey(es[k].title), |objs|).Some?
  }

  /** Every listed object is found by its title: its own name, or the blank one. */
  lemma {:induction false} ListedByFile(objs: seq<Part>)
    requires FirstFile(objs, "", |objs|).Some? || forall i | 0 <= i < |objs| :: objs[i].file != Absent
    ensures AllByFile(MergedWith([], objs), objs)
  {
    FromNothing(objs);
    forall k: nat | k < |objs| ensures FirstFile(objs, FileKey(OrNull(objs[k].file)), |objs|).Some? {
      BlankKey(objs[k].file);
    }
  }

  /** Then only the first file of each name is claimed. */
  lemma {:induction false} OnlyFirstsClaimed(es: seq<Part>, objs: seq<Part>, u: nat)
    requires AllByFile(es, objs) && u < |objs|
    requires objs[u].file == Absent || exists i :: 0 <= i < u && objs[i].file != Absent && FileKey(objs[i].file) == FileKey(objs[u].file)
    ensures u !in Claims(Matches(es, objs))
  {
    forall k: nat | k < |es| ensures Matches(es, objs)[k] != Some(u) {
      MatchAt(es, objs, k);
    }
  }

  lemma {:induction false} SomeAbsentChanges(objs: seq<Part>, i: nat)
    requires i < |objs| && objs[i].file == Absent
    ensures var es := MergedWith([], objs); MergedWith(es, objs) != es
  {
    if FirstFile(objs, "", |objs|).None? {
      UnnamedChanges(objs, i);
    } else {
      ListedByFile(objs);
      OnlyFirstsClaimed(MergedWith([], objs), objs, i);
      UnclaimedGrows(MergedWith([], objs), objs, i);
    }
  }

  lemma {:induction false} SameNameChanges(objs: seq<Part>, i: nat, j: nat)
    requires forall k | 0 <= k < |objs| :: objs[k].file != Absent
    requires i < j < |objs| && FileKey(objs[i].file) == FileKey(objs[j].file)
    ensures var es := MergedWith([], objs); |MergedWith(es, objs)| > |es|
  {
    ListedByFile(objs);
    OnlyFirstsClaimed(MergedWith([], objs), objs, j);
    UnclaimedGrows(MergedWith([], objs), objs, j);
  }

  /** Names that are missing, empty or alike show in a manifest without ASpace parts already. */
  lemma {:induction false} ListedTwiceChanges(objs: seq<Part>)
    requires !DistinctFiles(objs)
    ensures var es := MergedWith([], objs); MergedWith(es, objs) != es
  {
    if i: nat :| i < |objs| && objs[i].file == Absent {
      SomeAbsentChanges(objs, i);
    } else if i: nat, j: nat :| i < j < |objs| && FileKey(objs[i].file) == FileKey(objs[j].file) {
      SameNameChanges(objs, i, j);
    } else {
      var i: nat :| i < |objs| && !Named(objs[i].file);
      EmptyNameChanges(objs, i);
    }
  }

  /** An object named by the empty string is listed under null, and then under the empty string. */
  lemma {:induction false} EmptyNameChanges(objs: seq<Part>, i: nat)
    requires i < |objs| && objs[i].file == Str("")
    requires forall j, k | 0 <= j < k < |objs| :: FileKey(objs[j].file) != FileKey(objs[k].file)
    ensures var es := MergedWith([], objs); MergedWith(es, objs) != es
  {
    var es := MergedWith([], objs);
    FromNothing(objs);
    MatchAt(es, objs, i);
    BlankKey(objs[i].file);
    var f := FirstFile(objs, "", |objs|);
    assert f.Some? && FileKey(objs[f.value].file) == FileKey(objs[i].file);
    assert f == Some(i);
    assert MergedWith(es, objs)[i] == Entry(es[i], Some(i), objs, i);
  }

  /** IDEMPOTENCE, exactly: the manifest is stable under a second merge for every list of parts if
      and only if the DIP objects' files are named and no two names are alike. */
  lemma {:induction false} MergeIdempotentIff(dip: seq<Dip>)
    ensures (forall inner :: Merged(Merged(inner, dip), dip) == Merged(inner, dip)) <==> DistinctFiles(Objects(dip))
  {
    if DistinctFiles(Objects(dip)) {
      forall inner ensures Merged(Merged(inner, dip), dip) == Merged(inner, dip) { MergeIdempotent(inner, dip); }
    } else {
      ListedTwiceChanges(Objects(dip));
      assert Merged(Merged([], dip), dip) != Merged([], dip);
    }
  }

  lemma TwoUnpaired(a: Part, b: Part)
    ensures MergedWith([], [a, b]) == [DipEntry(a, 0), DipEntry(b, 1)]
  {
    var objs := [a, b];
    assert Claims([]) == {};
    assert Unclaimed(2, {}) == [0, 1];
    assert Appended(objs, [0, 1], 0) == [DipEntry(a, 0), DipEntry(b, 1)];
  }

  lemma BothFirst(objs: seq<Part>, e: Part, f: Part)
    requires |objs| == 2 && ByName(e.title, objs) == Some(0) && ByName(f.title, objs) == Some(0)
    ensures |MergedWith([e, f], objs)| == 3
  {
    MatchesSnoc([], e, objs);
    MatchesSnoc([e], f, objs);
    assert [] + [e] == [e] && [e] + [f] == [e, f];
    var ms := Matches([e, f], objs);
    assert ms == [Some(0), Some(0)];
    assert Claims(ms) == {0};
    UnclaimedCount(2, {0});
  }

  /** Two DIP objects with the same file name: the second merge pairs both entries with the first
      object, and appends the second once more. */
  lemma SameNameGrows(a: Part, b: Part)
    requires Truthy(a.file) && FileKey(a.file) != "" && FileKey(b.file) == FileKey(a.file)
    ensures var dip := [Dip(false, a), Dip(false, b)];
      |Merged([], dip)| == 2 && |Merged(Merged([], dip), dip)| == 3
  {
    var dip := [Dip(false, a), Dip(false, b)];
    assert dip[..1] == [Dip(false, a)] && Objects(dip[..1]) == [a];
    assert Objects(dip) == [a, b];
    TwoUnpaired(a, b);
    assert FirstFile([a, b], FileKey(a.file), 1) == Some(0);
    BothFirst([a, b], DipEntry(a, 0), DipEntry(b, 1));
  }
}
