/** Planning agent runs: the query that finds the bugs with too few patches, and the batch that runs
    the agent on them.  The query is given with the meaning of its SQL clauses, on tables that are
    lists of rows; the main results say that under the unique constraints it computes a simple
    count, and that a batch made from it never overshoots. */
module RunPlanner {
  import opened KArenaModels
  import opened Prelude

  datatype KCacheRow = KCacheRow(bug: string, commit: BaseCommit, success: bool, reproduced: bool)

  datatype MemberRow = MemberRow(dataset: nat, bug: string)

  datatype DevPatchRow = DevPatchRow(bug: string, fixedTime: int)

  datatype AgentPatchRow = AgentPatchRow(id: nat, bug: string, config: nat, unionId: nat)

  datatype Database = Database(kcache: seq<KCacheRow>, members: seq<MemberRow>, devPatches: seq<DevPatchRow>,
                               agentPatches: seq<AgentPatchRow>)

  datatype Request = Request(commit: BaseCommit, config: nat, runs: nat, dataset: Option<nat>,
                             fixedAfter: Option<int>, fixedBefore: Option<int>)

  // ---------------------------------------------------------------- the SQL query

  function MemberCount(ms: seq<MemberRow>, dataset: nat, bug: string): nat {
    if ms == [] then 0
    else (if ms[0] == MemberRow(dataset, bug) then 1 else 0) + MemberCount(ms[1..], dataset, bug)
  }

  function Repeat<T>(x: T, n: nat): seq<T> {
    seq(n, _ => x)
  }

  /** `INNER JOIN bug_dataset_members`: a row appears once for each matching member row. */
  function MembersJoin(ks: seq<KCacheRow>, ms: seq<MemberRow>, dataset: Option<nat>): seq<KCacheRow> {
    if ks == [] then []
    else
      Repeat(ks[0], if dataset.None? then 1 else MemberCount(ms, dataset.value, ks[0].bug))
      + MembersJoin(ks[1..], ms, dataset)
  }

  function PatchIds(aps: seq<AgentPatchRow>, bug: string, config: nat): seq<nat> {
    if aps == [] then []
    else (if aps[0].bug == bug && aps[0].config == config then [aps[0].id] else []) + PatchIds(aps[1..], bug, config)
  }

  datatype Joined = Joined(k: KCacheRow, patch: Option<nat>)

  function PatchRows(k: KCacheRow, ids: seq<nat>): seq<Joined> {
    if ids == [] then [Joined(k, None)] else seq(|ids|, i requires 0 <= i < |ids| => Joined(k, Some(ids[i])))
  }

  /** `LEFT JOIN agent_patches`: a row without a match appears once, with a null. */
  function PatchJoin(ks: seq<KCacheRow>, aps: seq<AgentPatchRow>, config: nat): seq<Joined> {
    if ks == [] then []
    else PatchRows(ks[0], PatchIds(aps, ks[0].bug, config)) + PatchJoin(ks[1..], aps, config)
  }

  /** `SELECT bugId FROM developer_patches`, with the bounds that are given. */
  function FixedInWindow(ds: seq<DevPatchRow>, after: Option<int>, before: Option<int>): set<string> {
    if ds == [] then {}
    else
      (if (after.None? || after.value <= ds[0].fixedTime) && (before.None? || ds[0].fixedTime <= before.value)
       then {ds[0].bug} else {}) + FixedInWindow(ds[1..], after, before)
  }

  predicate Kept(db: Database, r: Request, k: KCacheRow) {
    && k.commit == r.commit && k.success && k.reproduced
    && (r.fixedAfter == None == r.fixedBefore ||
        k.bug in FixedInWindow(db.devPatches, r.fixedAfter, r.fixedBefore))
  }

  function Where(db: Database, r: Request, rows: seq<Joined>): seq<Joined> {
    if rows == [] then []
    else (if Kept(db, r, rows[0].k) then [rows[0]] else []) + Where(db, r, rows[1..])
  }

  /** All joins over some of the cached builds. */
  function Joins(db: Database, r: Request, ks: seq<KCacheRow>): seq<Joined> {
    PatchJoin(MembersJoin(ks, db.members, r.dataset), db.agentPatches, r.config)
  }

  function From(db: Database, r: Request): seq<Joined> {
    Where(db, r, Joins(db, r, db.kcache))
  }

  function Groups(rows: seq<Joined>): set<string> {
    if rows == [] then {} else {rows[0].k.bug} + Groups(rows[1..])
  }

  /** `COUNT(ap.agentPatchId)` in the group of `bug`: nulls do not count. */
  function Count(rows: seq<Joined>, bug: string): nat {
    if rows == [] then 0
    else (if rows[0].k.bug == bug && rows[0].patch.Some? then 1 else 0) + Count(rows[1..], bug)
  }

  function Query(db: Database, r: Request): map<string, int> {
    var rows := From(db, r);
    map b | b in Groups(rows) && Count(rows, b) < r.runs :: r.runs - Count(rows, b)
  }

  // ---------------------------------------------------------------- what it means

  predicate IsAttempt(aps: seq<AgentPatchRow>, i: nat, bug: string, config: nat) {
    i < |aps| && aps[i].bug == bug && aps[i].config == config
  }

  /** How many rows there are for the bug and the configuration. */
  function Attempts(aps: seq<AgentPatchRow>, bug: string, config: nat): nat {
    |set i: nat | i < |aps| && IsAttempt(aps, i, bug, config)|
  }

  lemma AttemptsAppend(aps: seq<AgentPatchRow>, row: AgentPatchRow, bug: string, config: nat)
    ensures Attempts(aps + [row], bug, config)
              == Attempts(aps, bug, config) + if row.bug == bug && row.config == config then 1 else 0
  {
    var before := set i: nat | i < |aps| && IsAttempt(aps, i, bug, config);
    var after := set i: nat | i < |aps + [row]| && IsAttempt(aps + [row], i, bug, config);
    forall i: nat | i < |aps| ensures IsAttempt(aps + [row], i, bug, config) <==> IsAttempt(aps, i, bug, config) {
    }
    if row.bug == bug && row.config == config {
      assert after == before + {|aps|};
    } else {
      assert after == before;
    }
  }

  /** The join collects one id for each of these rows. */
  lemma {:induction false} JoinFindsAttempts(aps: seq<AgentPatchRow>, bug: string, config: nat)
    ensures |PatchIds(aps, bug, config)| == Attempts(aps, bug, config)
  {
    if aps == [] {
      assert (set i: nat | i < |aps| && IsAttempt(aps, i, bug, config)) == {};
    } else {
      var front, last := aps[..|aps| - 1], aps[|aps| - 1];
      JoinFindsAttempts(front, bug, config);
      AttemptsAppend(front, last, bug, config);
      PatchIdsAppend(front, [last], bug, config);
      assert aps == front + [last];
    }
  }

  /** A bug with a fix in the window; without bounds the window is not looked at. */
  predicate InWindow(ds: seq<DevPatchRow>, r: Request, bug: string) {
    r.fixedAfter.Some? || r.fixedBefore.Some? ==> exists i :: 0 <= i < |ds| && IsFixIn(ds[i], r, bug)
  }

  predicate IsFixIn(d: DevPatchRow, r: Request, bug: string) {
    && d.bug == bug
    && (r.fixedAfter.Some? ==> d.fixedTime >= r.fixedAfter.value)
    && (r.fixedBefore.Some? ==> d.fixedTime <= r.fixedBefore.value)
  }

  lemma {:induction false} WindowMeans(ds: seq<DevPatchRow>, r: Request, bug: string)
    ensures bug in FixedInWindow(ds, r.fixedAfter, r.fixedBefore) <==>
              exists i :: 0 <= i < |ds| && IsFixIn(ds[i], r, bug)
  {
    if ds != [] {
      WindowMeans(ds[1..], r, bug);
      assert ds == [ds[0]] + ds[1..];
      if i :| 0 <= i < |ds[1..]| && IsFixIn(ds[1..][i], r, bug) { assert IsFixIn(ds[i + 1], r, bug); }
      if i :| 0 <= i < |ds| && IsFixIn(ds[i], r, bug) && i > 0 { assert IsFixIn(ds[1..][i - 1], r, bug); }
    }
  }

  predicate HasReproducedBuild(db: Database, commit: BaseCommit, bug: string) {
    KCacheRow(bug, commit, true, true) in db.kcache
  }

  predicate Eligible(db: Database, r: Request, bug: string) {
    && HasReproducedBuild(db, r.commit, bug)
    && (r.dataset.Some? ==> MemberRow(r.dataset.value, bug) in db.members)
    && InWindow(db.devPatches, r, bug)
  }

  function Plan(db: Database, r: Request): map<string, int> {
    var bugs := set i | 0 <= i < |db.kcache| :: db.kcache[i].bug;
    map b | b in bugs && Eligible(db, r, b) && Attempts(db.agentPatches, b, r.config) < r.runs
      :: r.runs - Attempts(db.agentPatches, b, r.config)
  }

  /** `UNIQUE(bugId, baseCommit)` and the primary key of the members table. */
  ghost predicate Constraints(db: Database) {
    && (forall i, j :: 0 <= i < j < |db.kcache| ==>
        (db.kcache[i].bug, db.kcache[i].commit) != (db.kcache[j].bug, db.kcache[j].commit))
    && (forall i, j :: 0 <= i < j < |db.members| ==> db.members[i] != db.members[j])
  }

  /** How many rows of the joins before the last one belong to `bug` and survive the filter. */
  function Hits(db: Database, r: Request, ks: seq<KCacheRow>, bug: string): nat {
    if ks == [] then 0
    else
      HitsOfOne(db, r, ks[0], bug) + Hits(db, r, ks[1..], bug)
  }

  function Copies(db: Database, r: Request, k: KCacheRow): nat {
    if r.dataset.None? then 1 else MemberCount(db.members, r.dataset.value, k.bug)
  }

  function HitsOfOne(db: Database, r: Request, k: KCacheRow, bug: string): nat {
    if k.bug == bug && Kept(db, r, k) then Copies(db, r, k) else 0
  }

  /** What the filter and the grouping make of some joined rows, for one bug: its count, and whether
      it has a group at all. */
  function Tally(db: Database, r: Request, rows: seq<Joined>, bug: string): (nat, bool) {
    (Count(Where(db, r, rows), bug), bug in Groups(Where(db, r, rows)))
  }

  lemma TallyAppend(db: Database, r: Request, a: seq<Joined>, b: seq<Joined>, bug: string)
    ensures var (m, p) := Tally(db, r, a, bug);
            var (n, q) := Tally(db, r, b, bug);
            Tally(db, r, a + b, bug) == (m + n, p || q)
  {
    WhereAppend(db, r, a, b);
    CountAppend(Where(db, r, a), Where(db, r, b), bug);
    GroupsAppend(Where(db, r, a), Where(db, r, b));
  }

  lemma {:induction false} WhereAppend(db: Database, r: Request, a: seq<Joined>, b: seq<Joined>)
    ensures Where(db, r, a + b) == Where(db, r, a) + Where(db, r, b)
  {
    if a == [] {
      assert a + b == b;
    } else {
      assert (a + b)[1..] == a[1..] + b;
      WhereAppend(db, r, a[1..], b);
    }
  }

  lemma {:induction false} CountAppend(a: seq<Joined>, b: seq<Joined>, bug: string)
    ensures Count(a + b, bug) == Count(a, bug) + Count(b, bug)
  {
    if a == [] {
      assert a + b == b;
    } else {
      assert (a + b)[1..] == a[1..] + b;
      CountAppend(a[1..], b, bug);
    }
  }

  lemma {:induction false} PatchJoinAppend(a: seq<KCacheRow>, b: seq<KCacheRow>, aps: seq<AgentPatchRow>, config: nat)
    ensures PatchJoin(a + b, aps, config) == PatchJoin(a, aps, config) + PatchJoin(b, aps, config)
  {
    if a == [] {
      assert a + b == b;
    } else {
      assert (a + b)[1..] == a[1..] + b;
      PatchJoinAppend(a[1..], b, aps, config);
    }
  }

  lemma {:induction false} WhereUniform(db: Database, r: Request, k: KCacheRow, rows: seq<Joined>)
    requires forall i :: 0 <= i < |rows| ==> rows[i].k == k
    ensures Where(db, r, rows) == if Kept(db, r, k) then rows else []
  {
    if rows != [] {
      WhereUniform(db, r, k, rows[1..]);
      assert rows == [rows[0]] + rows[1..];
    }
  }

  lemma {:induction false} CountUniform(k: KCacheRow, rows: seq<Joined>, bug: string)
    requires forall i :: 0 <= i < |rows| ==> rows[i].k == k
    requires (forall i :: 0 <= i < |rows| ==> rows[i].patch.Some?)
              || (forall i :: 0 <= i < |rows| ==> rows[i].patch.None?)
    ensures Count(rows, bug) == if rows != [] && rows[0].patch.Some? && k.bug == bug then |rows| else 0
    ensures Groups(rows) == if rows == [] then {} else {k.bug}
  {
    if rows != [] {
      CountUniform(k, rows[1..], bug);
    }
  }

  /** The rows that one cached build contributes. */
  lemma LeftJoinOfOne(db: Database, r: Request, k: KCacheRow, ids: seq<nat>, bug: string)
    ensures Tally(db, r, PatchRows(k, ids), bug) == if k.bug == bug && Kept(db, r, k) then (|ids|, true) else (0, false)
  {
    WhereUniform(db, r, k, PatchRows(k, ids));
    CountUniform(k, PatchRows(k, ids), bug);
  }

  lemma {:induction false} GroupsAppend(a: seq<Joined>, b: seq<Joined>)
    ensures Groups(a + b) == Groups(a) + Groups(b)
  {
    if a == [] {
      assert a + b == b;
    } else {
      assert (a + b)[1..] == a[1..] + b;
      GroupsAppend(a[1..], b);
    }
  }

  lemma {:induction false} JoinOfRepeat(db: Database, r: Request, k: KCacheRow, n: nat, bug: string)
    ensures Tally(db, r, PatchJoin(Repeat(k, n), db.agentPatches, r.config), bug)
            == if k.bug == bug && Kept(db, r, k) then (n * Attempts(db.agentPatches, bug, r.config), n > 0)
                else (0, false)
  {
    if n > 0 {
      JoinOfRepeat(db, r, k, n - 1, bug);
      var ids := PatchIds(db.agentPatches, k.bug, r.config);
      assert Repeat(k, n)[0] == k && Repeat(k, n)[1..] == Repeat(k, n - 1);
      TallyAppend(db, r, PatchRows(k, ids), PatchJoin(Repeat(k, n - 1), db.agentPatches, r.config), bug);
      LeftJoinOfOne(db, r, k, ids, bug);
      JoinFindsAttempts(db.agentPatches, k.bug, r.config);
      OneMoreTime(n, |ids|);
    }
  }

  lemma OneMoreTime(n: nat, a: nat)
    requires n > 0
    ensures a + (n - 1) * a == n * a
  {
  }

  /** The tally of a bug with `h` joined rows, each of which meets its `a` patches. */
  function Times(h: nat, a: nat): (nat, bool) {
    (h * a, h > 0)
  }

  lemma AddUp(head: (nat, bool), rest: (nat, bool), whole: (nat, bool), x: nat, y: nat, a: nat)
    requires head == Times(x, a) && rest == Times(y, a) && whole == (head.0 + rest.0, head.1 || rest.1)
    ensures whole == Times(x + y, a)
  {
    assert x * a + y * a == (x + y) * a;
  }

  lemma JoinsSplit(db: Database, r: Request, ks: seq<KCacheRow>, bug: string)
    requires ks != []
    ensures var head := PatchJoin(Repeat(ks[0], Copies(db, r, ks[0])), db.agentPatches, r.config);
            Tally(db, r, Joins(db, r, ks), bug) == Tally(db, r, head + Joins(db, r, ks[1..]), bug)
  {
    var head, tail := Repeat(ks[0], Copies(db, r, ks[0])), MembersJoin(ks[1..], db.members, r.dataset);
    assert MembersJoin(ks, db.members, r.dataset) == head + tail;
    PatchJoinAppend(head, tail, db.agentPatches, r.config);
  }

  lemma JoinOfOne(db: Database, r: Request, k: KCacheRow, bug: string)
    ensures Tally(db, r, PatchJoin(Repeat(k, Copies(db, r, k)), db.agentPatches, r.config), bug) ==
            Times(HitsOfOne(db, r, k, bug), Attempts(db.agentPatches, bug, r.config))
  {
    JoinOfRepeat(db, r, k, Copies(db, r, k), bug);
  }

  lemma JoinsAddUp(db: Database, r: Request, ks: seq<KCacheRow>, bug: string)
    requires ks != []
    ensures var head := Tally(db, r, PatchJoin(Repeat(ks[0], Copies(db, r, ks[0])), db.agentPatches, r.config), bug);
            var rest := Tally(db, r, Joins(db, r, ks[1..]), bug);
            Tally(db, r, Joins(db, r, ks), bug) == (head.0 + rest.0, head.1 || rest.1)
  {
    JoinsSplit(db, r, ks, bug);
    TallyAppend(db, r, PatchJoin(Repeat(ks[0], Copies(db, r, ks[0])), db.agentPatches, r.config),
                Joins(db, r, ks[1..]), bug);
  }

  lemma NothingJoined(db: Database, r: Request, bug: string, a: nat)
    ensures Tally(db, r, Joins(db, r, []), bug) == Times(0, a) && Hits(db, r, [], bug) == 0
  {
  }

  lemma {:induction false} JoinsAreTimes(db: Database, r: Request, ks: seq<KCacheRow>, bug: string, a: nat)
    requires a == Attempts(db.agentPatches, bug, r.config)
    ensures Tally(db, r, Joins(db, r, ks), bug) == Times(Hits(db, r, ks, bug), a)
    decreases ks
  {
    if ks == [] {
      NothingJoined(db, r, bug, a);
    } else {
      var head := PatchJoin(Repeat(ks[0], Copies(db, r, ks[0])), db.agentPatches, r.config);
      JoinsAreTimes(db, r, ks[1..], bug, a);
      JoinOfOne(db, r, ks[0], bug);
      JoinsAddUp(db, r, ks, bug);
      AddUp(Tally(db, r, head, bug), Tally(db, r, Joins(db, r, ks[1..]), bug), Tally(db, r, Joins(db, r, ks), bug),
            HitsOfOne(db, r, ks[0], bug), Hits(db, r, ks[1..], bug), a);
    }
  }

  /** Without any constraint, the joins multiply: the count of a bug's group is its number of patches
      times the number of rows the earlier joins produce for it. */
  lemma JoinsMultiply(db: Database, r: Request, ks: seq<KCacheRow>, bug: string)
    ensures Tally(db, r, Joins(db, r, ks), bug)
            == (Hits(db, r, ks, bug) * Attempts(db.agentPatches, bug, r.config), Hits(db, r, ks, bug) > 0)
  {
    JoinsAreTimes(db, r, ks, bug, Attempts(db.agentPatches, bug, r.config));
  }

  lemma {:induction false} MemberCountUnique(ms: seq<MemberRow>, dataset: nat, bug: string)
    requires forall i, j :: 0 <= i < j < |ms| ==> ms[i] != ms[j]
    ensures MemberCount(ms, dataset, bug) == if MemberRow(dataset, bug) in ms then 1 else 0
  {
    if ms != [] {
      MemberCountUnique(ms[1..], dataset, bug);
      assert ms == [ms[0]] + ms[1..];
      if ms[0] == MemberRow(dataset, bug) { assert ms[0] !in ms[1..]; }
    }
  }

  lemma {:induction false} HitsUnique(db: Database, r: Request, ks: seq<KCacheRow>, bug: string)
    requires forall i, j :: 0 <= i < j < |db.members| ==> db.members[i] != db.members[j]
    requires forall i, j :: 0 <= i < j < |ks| ==> (ks[i].bug, ks[i].commit) != (ks[j].bug, ks[j].commit)
    ensures Hits(db, r, ks, bug) ==
            if KCacheRow(bug, r.commit, true, true) in ks && InWindow(db.devPatches, r, bug)
               && (r.dataset.Some? ==> MemberRow(r.dataset.value, bug) in db.members) then 1 else 0
  {
    if ks != [] {
      HitsUnique(db, r, ks[1..], bug);
      assert ks == [ks[0]] + ks[1..];
      if r.dataset.Some? { MemberCountUnique(db.members, r.dataset.value, bug); }
      WindowMeans(db.devPatches, r, bug);
      if ks[0].bug == bug && ks[0].commit == r.commit {
        assert KCacheRow(bug, r.commit, true, true) !in ks[1..];
      }
    }
  }

  /** The query returns exactly the eligible bugs with fewer patches than asked for, each with the
      number that is missing: the unique constraints rule out duplication by the joins. */
  lemma QueryIsPlan(db: Database, r: Request)
    requires Constraints(db)
    ensures Query(db, r) == Plan(db, r)
  {
    var rows := From(db, r);
    forall b ensures b in Query(db, r) <==> b in Plan(db, r)
      ensures b in Plan(db, r) ==> b in Query(db, r) && Query(db, r)[b] == Plan(db, r)[b]
    {
      JoinsMultiply(db, r, db.kcache, b);
      HitsUnique(db, r, db.kcache, b);
      if HasReproducedBuild(db, r.commit, b) {
        var i :| 0 <= i < |db.kcache| && db.kcache[i] == KCacheRow(b, r.commit, true, true);
        assert db.kcache[i].bug == b;
      }
    }
  }

  lemma {:induction false} MemberCountPositive(ms: seq<MemberRow>, dataset: nat, bug: string)
    ensures MemberCount(ms, dataset, bug) > 0 <==> MemberRow(dataset, bug) in ms
  {
    if ms != [] {
      MemberCountPositive(ms[1..], dataset, bug);
      assert ms == [ms[0]] + ms[1..];
    }
  }

  lemma {:induction false} HitsPositive(db: Database, r: Request, ks: seq<KCacheRow>, bug: string)
    ensures Hits(db, r, ks, bug) > 0 <==>
            KCacheRow(bug, r.commit, true, true) in ks && InWindow(db.devPatches, r, bug)
            && (r.dataset.Some? ==> MemberRow(r.dataset.value, bug) in db.members)
  {
    if ks != [] {
      HitsPositive(db, r, ks[1..], bug);
      WindowMeans(db.devPatches, r, bug);
      assert ks == [ks[0]] + ks[1..];
      if r.dataset.Some? { MemberCountPositive(db.members, r.dataset.value, bug); }
    }
  }

  lemma {:induction false} SamePatchesSameJoin(ks: seq<KCacheRow>, a: seq<AgentPatchRow>, b: seq<AgentPatchRow>,
                                               config: nat)
    requires forall bug :: PatchIds(a, bug, config) == PatchIds(b, bug, config)
    ensures PatchJoin(ks, a, config) == PatchJoin(ks, b, config)
  {
    if ks != [] { SamePatchesSameJoin(ks[1..], a, b, config); }
  }

  lemma {:induction false} SamePatchesSameRows(db: Database, r: Request, aps: seq<AgentPatchRow>, rows: seq<Joined>)
    ensures Where(db.(agentPatches := aps), r, rows) == Where(db, r, rows)
  {
    if rows != [] { SamePatchesSameRows(db, r, aps, rows[1..]); }
  }

  /** Patches of other configurations never change the answer, whatever the tables hold. */
  lemma OtherConfigsDoNotCount(db: Database, r: Request, a: seq<AgentPatchRow>, row: AgentPatchRow,
                               b: seq<AgentPatchRow>)
    requires row.config != r.config
    ensures Query(db.(agentPatches := a + [row] + b), r) == Query(db.(agentPatches := a + b), r)
  {
    var with', without := a + [row] + b, a + b;
    forall bug ensures PatchIds(with', bug, r.config) == PatchIds(without, bug, r.config) {
      PatchIdsAppend(a + [row], b, bug, r.config);
      PatchIdsAppend(a, [row], bug, r.config);
      PatchIdsAppend(a, b, bug, r.config);
    }
    SamePatchesSameJoin(MembersJoin(db.kcache, db.members, r.dataset), with', without, r.config);
    SamePatchesSameRows(db, r, with', Joins(db.(agentPatches := with'), r, db.kcache));
    SamePatchesSameRows(db, r, without, Joins(db.(agentPatches := without), r, db.kcache));
  }

  /** The joins produce several rows for a bug that has some patches, but not enough. */
  predicate Miscounted(db: Database, r: Request, bug: string) {
    Hits(db, r, db.kcache, bug) > 1 && 0 < Attempts(db.agentPatches, bug, r.config) < r.runs
  }

  lemma ProductExceeds(h: nat, a: nat)
    ensures h == 0 ==> h * a == 0
    ensures h == 1 || a == 0 ==> h * a == a
    ensures h > 1 && a > 0 ==> h * a > a
  {
    if h > 1 { ProductGrows(h, a); }
  }

  lemma ProductGrows(h: nat, a: nat)
    requires h > 1
    ensures h * a >= 2 * a
  {
  }

  /** What multiplying a count does to the comparison with the target. */
  lemma MiscountArithmetic(h: nat, a: nat, product: nat, runs: nat)
    requires (h == 1 || a == 0 ==> product == a) && (h > 1 && a > 0 ==> product > a)
    ensures ((h > 0 && product < runs <==> h > 0 && a < runs) && (h > 0 && a < runs ==> runs - product == runs - a))
            <==> !(h > 1 && 0 < a < runs)
  {
  }

  lemma EntriesOf(db: Database, r: Request, b: string)
    ensures var h, a := Hits(db, r, db.kcache, b), Attempts(db.agentPatches, b, r.config);
            && (b in Query(db, r) <==> h > 0 && h * a < r.runs)
            && (b in Query(db, r) ==> Query(db, r)[b] == r.runs - h * a)
            && (b in Plan(db, r) <==> h > 0 && a < r.runs)
  {
    JoinsMultiply(db, r, db.kcache, b);
    HitsPositive(db, r, db.kcache, b);
    if HasReproducedBuild(db, r.commit, b) {
      var i :| 0 <= i < |db.kcache| && db.kcache[i] == KCacheRow(b, r.commit, true, true);
      assert db.kcache[i].bug == b;
    }
  }

  predicate AgreeOn(p: map<string, int>, q: map<string, int>, b: string) {
    (b in p <==> b in q) && (b in p && b in q ==> p[b] == q[b])
  }

  lemma AgreeEverywhere(p: map<string, int>, q: map<string, int>)
    ensures p == q <==> forall b :: AgreeOn(p, q, b)
  {
    if forall b :: AgreeOn(p, q, b) {
      forall b | b in p || b in q ensures b in p && b in q && p[b] == q[b] {
        assert AgreeOn(p, q, b);
      }
    }
  }

  lemma MiscountDecides(db: Database, r: Request, b: string)
    ensures AgreeOn(Query(db, r), Plan(db, r), b) <==> !Miscounted(db, r, b)
  {
    EntriesOf(db, r, b);
    var h, a := Hits(db, r, db.kcache, b), Attempts(db.agentPatches, b, r.config);
    ProductExceeds(h, a);
    MiscountArithmetic(h, a, h * a, r.runs);
  }

  /** Without the constraints: the query is right on exactly the tables where every bug for which the
      joins produce several rows has no patch at all or enough of them. */
  lemma QueryIsPlanIff(db: Database, r: Request)
    ensures Query(db, r) == Plan(db, r) <==> forall b :: !Miscounted(db, r, b)
  {
    AgreeEverywhere(Query(db, r), Plan(db, r));
    forall b ensures AgreeOn(Query(db, r), Plan(db, r), b) <==> !Miscounted(db, r, b) {
      MiscountDecides(db, r, b);
    }
  }

  /** For instance, one duplicated cache row makes a bug with one patch of two look done. */
  lemma DuplicateRowMiscounts()
    ensures var k := KCacheRow("b", ParentCommit, true, true);
            var db := Database([k, k], [], [], [AgentPatchRow(1, "b", 7, 1)]);
            var r := Request(ParentCommit, 7, 2, None, None, None);
            Query(db, r) == map[] && Plan(db, r) == map["b" := 1]
  {
    var k := KCacheRow("b", ParentCommit, true, true);
    var db := Database([k, k], [], [], [AgentPatchRow(1, "b", 7, 1)]);
    var r := Request(ParentCommit, 7, 2, None, None, None);
    assert PatchIds(db.agentPatches, "b", 7) == [1];
    JoinFindsAttempts(db.agentPatches, "b", 7);
    assert db.kcache[1..] == [k] && Hits(db, r, [k], "b") == 1 && Hits(db, r, db.kcache, "b") == 2;
    forall b ensures b !in Query(db, r) && (b in Plan(db, r) <==> b == "b") {
      EntriesOf(db, r, b);
      HitsPositive(db, r, db.kcache, b);
    }
  }

  // ---------------------------------------------------------------- the batch

  lemma {:induction false} PatchIdsAppend(a: seq<AgentPatchRow>, b: seq<AgentPatchRow>, bug: string, config: nat)
    ensures PatchIds(a + b, bug, config) == PatchIds(a, bug, config) + PatchIds(b, bug, config)
  {
    if a == [] {
      assert a + b == b;
    } else {
      assert (a + b)[1..] == a[1..] + b;
      PatchIdsAppend(a[1..], b, bug, config);
    }
  }

  function Max(a: int, b: int): int {
    if a < b then b else a
  }

  /** A batch under way.
      - `made`: the attempts that have ended, for each bug; `failed`: those of them without a row
      - `stopped`: the bugs whose image could not be had or whose task was cancelled */
  datatype Batch = Batch(made: map<string, nat>, failed: map<string, nat>, stopped: set<string>,
                         added: seq<AgentPatchRow>) {
    function Made(b: string): nat { if b in made then made[b] else 0 }

    function Failed(b: string): nat { if b in failed then failed[b] else 0 }
  }

  /** The tasks of a batch run side by side; a task that raises has the others cancelled, at any await. */
  datatype Event =
    | Attempt(bug: string, inserted: Option<nat>)   // the id of the new row, if the attempt works
    | Stop(bug: string)

  predicate Enabled(todo: map<string, int>, s: Batch, e: Event) {
    match e
    case Attempt(b, _) => b in todo && b !in s.stopped && s.Made(b) < todo[b]
    case Stop(b) => b in todo
  }

  function Apply(config: nat, unionId: nat, s: Batch, e: Event): Batch {
    match e
    case Attempt(b, Some(id)) =>
      s.(made := s.made[b := s.Made(b) + 1],
         added := s.added + [AgentPatchRow(id, b, config, unionId)])
    case Attempt(b, None) => s.(made := s.made[b := s.Made(b) + 1], failed := s.failed[b := s.Failed(b) + 1])
    case Stop(b) => s.(stopped := s.stopped + {b})
  }

  const FRESH := Batch(map[], map[], {}, [])

  ghost predicate IsSchedule(todo: map<string, int>, config: nat, unionId: nat, states: seq<Batch>,
                             events: seq<Event>) {
    && |states| == |events| + 1 && states[0] == FRESH
    && forall i :: 0 <= i < |events| ==> IsStep(todo, config, unionId, states, events, i)
  }

  ghost predicate IsStep(todo: map<string, int>, config: nat, unionId: nat, states: seq<Batch>, events: seq<Event>,
                         i: nat)
    requires i < |events| < |states|
  {
    Enabled(todo, states[i], events[i]) && states[i + 1] == Apply(config, unionId, states[i], events[i])
  }

  /** Some schedule of the tasks leads here. */
  ghost predicate Reachable(todo: map<string, int>, config: nat, unionId: nat, s: Batch) {
    exists states: seq<Batch>, events: seq<Event> ::
      IsSchedule(todo, config, unionId, states, events) && states[|events|] == s
  }

  lemma ReachableStart(todo: map<string, int>, config: nat, unionId: nat)
    ensures Reachable(todo, config, unionId, FRESH)
  {
    var states, events: seq<Event> := [FRESH], [];
    assert IsSchedule(todo, config, unionId, states, events) && states[|events|] == FRESH;
  }

  lemma ReachableStep(todo: map<string, int>, config: nat, unionId: nat, s: Batch, e: Event)
    requires Reachable(todo, config, unionId, s) && Enabled(todo, s, e)
    ensures Reachable(todo, config, unionId, Apply(config, unionId, s, e))
  {
    var states: seq<Batch>, events: seq<Event>
        :| IsSchedule(todo, config, unionId, states, events) && states[|events|] == s;
    var states', events' := states + [Apply(config, unionId, s, e)], events + [e];
    forall i | 0 <= i < |events'| ensures IsStep(todo, config, unionId, states', events', i) {
      if i < |events| { assert IsStep(todo, config, unionId, states, events, i); }
    }
    assert IsSchedule(todo, config, unionId, states', events') && states'[|events'|] == Apply(config, unionId, s, e);
  }

  /** Every attempt that has ended left a row or failed, and none was made beyond the plan. */
  ghost predicate Counted(todo: map<string, int>, config: nat, unionId: nat, s: Batch, b: string) {
    && Attempts(s.added, b, config) + s.Failed(b) == s.Made(b)
    && s.Made(b) <= if b in todo then Max(todo[b], 0) else 0
  }

  ghost predicate OwnRows(config: nat, unionId: nat, rows: seq<AgentPatchRow>) {
    forall i :: 0 <= i < |rows| ==> rows[i].config == config && rows[i].unionId == unionId
  }

  lemma StepCounts(todo: map<string, int>, config: nat, unionId: nat, s: Batch, e: Event, b: string)
    requires Counted(todo, config, unionId, s, b) && Enabled(todo, s, e)
    ensures Counted(todo, config, unionId, Apply(config, unionId, s, e), b)
  {
    if e.Attempt? && e.inserted.Some? {
      AttemptsAppend(s.added, AgentPatchRow(e.inserted.value, e.bug, config, unionId), b, config);
    }
  }

  lemma {:induction false} ScheduleCounts(todo: map<string, int>, config: nat, unionId: nat,
                                          states: seq<Batch>, events: seq<Event>, k: nat, b: string)
    requires IsSchedule(todo, config, unionId, states, events) && k < |states|
    ensures Counted(todo, config, unionId, states[k], b) && OwnRows(config, unionId, states[k].added)
  {
    if k > 0 {
      ScheduleCounts(todo, config, unionId, states, events, k - 1, b);
      assert IsStep(todo, config, unionId, states, events, k - 1);
      StepCounts(todo, config, unionId, states[k - 1], events[k - 1], b);
    }
  }

  lemma AttemptsAdd(db: Database, added: seq<AgentPatchRow>, b: string, config: nat)
    ensures Attempts(db.agentPatches + added, b, config)
              == Attempts(db.agentPatches, b, config) + Attempts(added, b, config)
  {
    JoinFindsAttempts(db.agentPatches + added, b, config);
    JoinFindsAttempts(db.agentPatches, b, config);
    JoinFindsAttempts(added, b, config);
    PatchIdsAppend(db.agentPatches, added, b, config);
  }

  /** No overshoot: at every moment of every schedule of a batch made from the query, no returned bug
      has more patches than asked for, and no other bug has gained any. */
  lemma NoOvershoot(db: Database, r: Request, unionId: nat, states: seq<Batch>, events: seq<Event>, k: nat, b: string)
    requires Constraints(db) && IsSchedule(Query(db, r), r.config, unionId, states, events) && k < |states|
    ensures b in Query(db, r) ==> Attempts(db.agentPatches + states[k].added, b, r.config) <= r.runs
    ensures b !in Query(db, r) ==>
              Attempts(db.agentPatches + states[k].added, b, r.config) == Attempts(db.agentPatches, b, r.config)
  {
    QueryIsPlan(db, r);
    ScheduleCounts(Query(db, r), r.config, unionId, states, events, k, b);
    AttemptsAdd(db, states[k].added, b, r.config);
  }

  /** The batch made every planned attempt on the bug and none failed. */
  predicate AllDone(todo: map<string, int>, s: Batch, b: string) {
    b in todo ==> s.Made(b) == todo[b] && s.Failed(b) == 0
  }

  /** At any moment, asking again returns nothing exactly if every planned attempt has inserted a patch. */
  lemma DoneIffAllSucceeded(db: Database, r: Request, unionId: nat, states: seq<Batch>, events: seq<Event>, k: nat)
    requires Constraints(db) && IsSchedule(Query(db, r), r.config, unionId, states, events) && k < |states|
    ensures Query(db.(agentPatches := db.agentPatches + states[k].added), r) == map[] <==>
            forall b :: AllDone(Query(db, r), states[k], b)
  {
    var db' := db.(agentPatches := db.agentPatches + states[k].added);
    QueryIsPlan(db, r);
    QueryIsPlan(db', r);
    forall b ensures b in Plan(db', r) <==> !AllDone(Query(db, r), states[k], b) {
      ScheduleCounts(Query(db, r), r.config, unionId, states, events, k, b);
      AttemptsAdd(db, states[k].added, b, r.config);
    }
    if forall b :: AllDone(Query(db, r), states[k], b) {
      assert forall b :: b !in Plan(db', r);
    }
  }

  datatype Entry = Plain(bug: string) | Counted(bug: string, runs: int)

  /** What happens to one bug: whether its image can be had, and which attempts insert a row. */
  datatype BugScript = BugScript(imageOk: bool, attempts: seq<bool>)

  /** The runs to make for each bug, from a list of bug ids and of pairs returned by the query. */
  function BugRuns(entries: seq<Entry>, nInstance: nat): map<string, int> {
    if entries == [] then map[]
    else
      var last := entries[|entries| - 1];
      BugRuns(entries[..|entries| - 1], nInstance)[last.bug := if last.Plain? then nInstance else last.runs]
  }

  /** The pairs of a query result, in any order, give back exactly that result. */
  lemma {:induction false} BugRunsOfPlan(plan: map<string, int>, entries: seq<Entry>, nInstance: nat)
    requires forall i :: 0 <= i < |entries| ==>
              entries[i].Counted? && entries[i].bug in plan && entries[i].runs == plan[entries[i].bug]
    ensures BugRuns(entries, nInstance) == map b | b in plan && Listed(entries, b) :: plan[b]
  {
    if entries != [] {
      var front := entries[..|entries| - 1];
      BugRunsOfPlan(plan, front, nInstance);
      forall b ensures Listed(entries, b) <==> b == entries[|entries| - 1].bug || Listed(front, b) {
        if Listed(front, b) {
          var i :| 0 <= i < |front| && front[i].bug == b;
          assert entries[i].bug == b;
        } else if Listed(entries, b) {
          var i :| 0 <= i < |entries| && entries[i].bug == b;
          assert i == |front|;
        }
      }
    }
  }

  /** No later entry names the same bug. */
  predicate IsLast(entries: seq<Entry>, i: nat) {
    i < |entries| && forall j :: i < j < |entries| ==> entries[j].bug != entries[i].bug
  }

  predicate Listed(entries: seq<Entry>, b: string) {
    exists i :: 0 <= i < |entries| && entries[i].bug == b
  }

  /** The bugs are those listed, and of a bug listed twice the last entry counts. */
  lemma {:induction false} LastEntryWins(entries: seq<Entry>, nInstance: nat, i: nat)
    ensures forall b :: b in BugRuns(entries, nInstance) <==> Listed(entries, b)
    ensures IsLast(entries, i) ==>
              && entries[i].bug in BugRuns(entries, nInstance)
              && BugRuns(entries, nInstance)[entries[i].bug] ==
                   match entries[i] case Plain(_) => nInstance case Counted(_, runs) => runs
  {
    if entries != [] {
      var front, last := entries[..|entries| - 1], entries[|entries| - 1];
      LastEntryWins(front, nInstance, i);
      forall b ensures Listed(entries, b) <==> b == last.bug || Listed(front, b) {
        if Listed(front, b) {
          var j :| 0 <= j < |front| && front[j].bug == b;
          assert entries[j].bug == b;
        }
      }
      if IsLast(entries, i) && i < |front| {
        assert IsLast(front, i) && entries[|front|].bug != entries[i].bug;
      }
    }
  }

  /** The ids are the keys of the plan, each once. */
  ghost predicate Listing(ids: seq<string>, todo: map<string, int>) {
    Distinct(ids) && forall b :: b in ids <==> b in todo
  }

  ghost predicate Covered(todo: map<string, int>, scripts: map<string, BugScript>) {
    forall b :: b in todo ==> b in scripts && |scripts[b].attempts| >= todo[b]
  }

  function Successes(attempts: seq<bool>): nat {
    if attempts == [] then 0 else Successes(attempts[..|attempts| - 1]) + if attempts[|attempts| - 1] then 1 else 0
  }

  lemma {:induction false} SuccessesAreCounted(attempts: seq<bool>)
    ensures Successes(attempts) == multiset(attempts)[true]
  {
    if attempts != [] {
      var front, last := attempts[..|attempts| - 1], attempts[|attempts| - 1];
      SuccessesAreCounted(front);
      assert attempts == front + [last];
    }
  }

  class AgentPatchProcess {
    const config: nat
    var bugRuns: map<string, int>
    var bugIds: seq<string>
    var rows: seq<AgentPatchRow>
    var unionCounter: nat
    var nextId: nat

    /** A bug listed twice keeps the last number of runs. */
    constructor (config: nat, entries: seq<Entry>, nInstance: nat, rows: seq<AgentPatchRow>, unionCounter: nat,
                 nextId: nat)
      ensures this.config == config && this.rows == rows && this.unionCounter == unionCounter && this.nextId == nextId
      ensures bugRuns == BugRuns(entries, nInstance)
      ensures Listing(bugIds, bugRuns)
    {
      var runs: map<string, int>, ids: seq<string> := map[], [];
      for n := 0 to |entries|
        invariant Distinct(ids) && (forall b :: b in ids <==> b in runs)
        invariant runs == BugRuns(entries[..n], nInstance)
      {
        assert entries[..n + 1][..n] == entries[..n];
        if entries[n].bug !in runs {
          ids := ids + [entries[n].bug];
        }
        runs := runs[entries[n].bug := if entries[n].Plain? then nInstance else entries[n].runs];
      }
      assert entries[..|entries|] == entries;
      this.config := config;
      bugRuns, bugIds := runs, ids;
      this.rows, this.unionCounter, this.nextId := rows, unionCounter, nextId;
    }

    /** One bug's task: its attempts, one after the other.  False stands for an exception.  `s` and
        `s'` are the batch before and after. */
    method ProcessBugInstances(bug: string, unionId: nat, script: BugScript, ghost s: Batch)
      returns (ok: bool, ghost s': Batch)
      requires bug in bugRuns && |script.attempts| >= bugRuns[bug]
      requires Reachable(bugRuns, config, unionId, s) && bug !in s.stopped && s.Made(bug) == s.Failed(bug) == 0
      modifies this`rows, this`nextId
      ensures Reachable(bugRuns, config, unionId, s')
      ensures s.added <= s'.added && rows == old(rows) + s'.added[|s.added|..]
      ensures ok == script.imageOk
      ensures SameElsewhere(s, s', bug)
      ensures ok ==> TaskDone(s', bug, script, Max(bugRuns[bug], 0))
    {
      s' := s;
      if !script.imageOk {
        ReachableStep(bugRuns, config, unionId, s, Stop(bug));
        s' := Apply(config, unionId, s, Stop(bug));
        return false, s';
      }
      var i := 0;
      while i < bugRuns[bug]
        invariant 0 <= i <= Max(bugRuns[bug], 0)
        invariant Reachable(bugRuns, config, unionId, s') && bug !in s'.stopped
        invariant s.added <= s'.added && rows == old(rows) + s'.added[|s.added|..]
        invariant SameElsewhere(s, s', bug)
        invariant TaskDone(s', bug, script, i)
      {
        assert script.attempts[..i + 1][..i] == script.attempts[..i];
        ghost var e := Attempt(bug, if script.attempts[i] then Some(nextId) else None);
        ReachableStep(bugRuns, config, unionId, s', e);
        ghost var before := s'.added;
        s' := Apply(config, unionId, s', e);
        if script.attempts[i] {
          rows := rows + [AgentPatchRow(nextId, bug, config, unionId)];
          assert s'.added[|s.added|..] == before[|s.added|..] + [AgentPatchRow(nextId, bug, config, unionId)];
          nextId := nextId + 1;
        }
        i := i + 1;
      }
      ok := true;
    }

    /** The whole batch, under one new union id, with its tasks one after the other: one of the schedules. */
    method ProcessBugs(scripts: map<string, BugScript>) returns (ok: bool, ghost s: Batch)
      requires Listing(bugIds, bugRuns) && Covered(bugRuns, scripts)
      modifies this`rows, this`nextId, this`unionCounter
      ensures unionCounter == old(unionCounter) + 1
      ensures Reachable(bugRuns, config, unionCounter, s) && rows == old(rows) + s.added
      ensures ok <==> forall b :: b in bugRuns ==> scripts[b].imageOk
      ensures ok ==> forall b :: b in bugRuns ==> TaskDone(s, b, scripts[b], Max(bugRuns[b], 0))
    {
      var unionId := unionCounter + 1;
      unionCounter := unionId;
      s := FRESH;
      ReachableStart(bugRuns, config, unionId);
      for n := 0 to |bugIds|
        invariant bugRuns == old(bugRuns) && unionCounter == unionId
        invariant Reachable(bugRuns, config, unionId, s) && rows == old(rows) + s.added
        invariant forall i :: n <= i < |bugIds| ==> Untouched(s, bugIds[i])
        invariant forall i :: 0 <= i < n ==> scripts[bugIds[i]].imageOk
                                             && TaskDone(s, bugIds[i], scripts[bugIds[i]], Max(bugRuns[bugIds[i]], 0))
      {
        var bug := bugIds[n];
        assert Untouched(s, bug);
        ghost var before := s;
        ok, s := ProcessBugInstances(bug, unionId, scripts[bug], s);
        assert s.added == before.added + s.added[|before.added|..];
        if !ok {
          return;
        }
        assert forall i :: 0 <= i < |bugIds| && i != n ==> bugIds[i] != bug;
      }
      ok := true;
    }
  }

  predicate Untouched(s: Batch, b: string) {
    b !in s.stopped && s.Made(b) == 0 && s.Failed(b) == 0
  }

  ghost predicate SameElsewhere(s: Batch, s': Batch, bug: string) {
    forall b :: b != bug ==>
        s'.Made(b) == s.Made(b) && s'.Failed(b) == s.Failed(b) && (b in s'.stopped <==> b in s.stopped)
  }

  /** The bug's task has made its first `n` attempts, and those of the script that fail have failed. */
  predicate TaskDone(s: Batch, bug: string, script: BugScript, n: nat) {
    n <= |script.attempts| && s.Made(bug) == n && s.Failed(bug) + Successes(script.attempts[..n]) == n
  }
}
