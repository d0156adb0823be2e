/** The queue that the GitLab webhook installer works through: rows without a webhook, oldest
    `last_synced` first, a bounded batch for each run.  Runs may be cut short, and other users of the
    table may add, change and delete rows at any moment.  The main results bound how much other
    work can be done before a given row gets its turn. */
module WebhookQueue {
  import opened Prelude

  const CHUNK_SIZE := 100

  /** An empty `group` or `project` stands for a missing one. */
  datatype Row = Row(group: string, project: string, installed: bool, lastSynced: int)

  type Table = map<nat, Row>

  datatype Resource = Group(id: string) | Project(id: string)

  function ResourceOf(row: Row): Option<Resource> {
    if row.group == "" && row.project == "" then None
    else if row.group != "" && row.project != "" then None
    else if row.group != "" then Some(Group(row.group))
    else Some(Project(row.project))
  }

  predicate Matches(row: Row, r: Resource) {
    match r
    case Group(id) => row.group == id
    case Project(id) => row.project == id
  }

  /** The unique constraints on `group_id` and `project_id`. */
  ghost predicate UniqueResources(t: Table) {
    forall p, q :: p in t && q in t && p != q ==> Differ(t[p].group, t[q].group) && Differ(t[p].project, t[q].project)
  }

  predicate Differ(a: string, b: string) { a == "" || a != b }

  /** The row names a group or a project, and not both. */
  predicate NamesOne(row: Row) { (row.group == "") != (row.project == "") }

  /** Every UPDATE also sets `last_synced` to the current time. */
  function UpdateWhere(t: Table, r: Resource, installed: Option<bool>, now: int): Table {
    map q | q in t ::
      if Matches(t[q], r)
      then t[q].(installed := if installed.Some? then installed.value else t[q].installed, lastSynced := now)
      else t[q]
  }

  function DeleteWhere(t: Table, r: Resource): Table {
    map q | q in t && !Matches(t[q], r) :: t[q]
  }

  predicate Pending(t: Table, p: nat) {
    p in t && !t[p].installed
  }

  function PendingRows(t: Table): set<nat> {
    set p | p in t && !t[p].installed
  }

  /** What the query may return: pending rows by increasing stamp, ties in any order, up to `limit`
      of them, and none that is younger than a row left behind. */
  ghost predicate IsOldestFirst(t: Table, batch: seq<nat>, limit: nat) {
    && Distinct(batch)
    && (forall i :: 0 <= i < |batch| ==> Pending(t, batch[i]))
    && (forall i, j :: 0 <= i < j < |batch| ==> t[batch[i]].lastSynced <= t[batch[j]].lastSynced)
    && (forall p, i :: Pending(t, p) && p !in batch && 0 <= i < |batch| ==> t[batch[i]].lastSynced <= t[p].lastSynced)
    && |batch| == if |PendingRows(t)| < limit then |PendingRows(t)| else limit
  }

  // ---------------------------------------------------------------- processing one row

  datatype Reply = Raises | Answer(yes: bool, rateLimited: bool)

  /** What GitLab answers while one row is processed, when, and whether the final write of the stamp works. */
  datatype Script = Script(serviceOk: bool, resource: Reply, admin: Reply, hook: Reply, install: Reply,
                           now: int, stampOk: bool)

  datatype Verdict = Continue | Abort

  /** The checks and the installation, before the final stamp. */
  function Checked(t: Table, row: Row, r: Resource, s: Script): (Table, Verdict) {
    if !s.serviceOk || s.resource.Raises? then (t, Abort)
    else if s.resource.rateLimited then (t, Continue)
    else if !s.resource.yes then (DeleteWhere(t, r), Continue)
    else if s.admin.Raises? then (t, Abort)
    else if s.admin.rateLimited then (t, Continue)
    else if !s.admin.yes then (DeleteWhere(t, r), Continue)
    else if s.hook.Raises? then (t, Abort)
    else if s.hook.rateLimited then (t, Continue)
    else
      var t1 := if s.hook.yes != row.installed then UpdateWhere(t, r, Some(s.hook.yes), s.now) else t;
      if s.hook.yes then (t1, Continue)
      else if s.install.Raises? then (t1, Abort)
      else if s.install.rateLimited then (t1, Continue)
      else if s.install.yes then (UpdateWhere(t1, r, Some(true), s.now), Continue)
      else (t1, Continue)
  }

  /** `row` is the row as it was fetched.  A row whose resource cannot be determined raises, both in
      the body and again in the `finally` part that would have stamped it. */
  function Processed(t: Table, row: Row, s: Script): (Table, Verdict) {
    match ResourceOf(row)
    case None => (t, Abort)
    case Some(r) =>
      var (t1, v) := Checked(t, row, r, s);
      (if s.stampOk then UpdateWhere(t1, r, None, s.now) else t1, v)
  }

  // ---------------------------------------------------------------- what becomes of a row

  predicate Yes(r: Reply) { r == Answer(true, false) }

  predicate No(r: Reply) { r == Answer(false, false) }

  /** The replies after which the row has its webhook: it was there already, or it could be created. */
  predicate Installs(s: Script) {
    && s.serviceOk && Yes(s.resource) && Yes(s.admin)
    && (Yes(s.hook) || (No(s.hook) && Yes(s.install)))
  }

  /** The replies after which the row is gone: no such resource, or no rights to it. */
  predicate Removes(s: Script) {
    s.serviceOk && (No(s.resource) || (Yes(s.resource) && No(s.admin)))
  }

  /** The replies that let an exception out: one that raises after affirmative ones, or after a missing hook. */
  predicate Escapes(s: Script) {
    || !s.serviceOk || s.resource.Raises?
    || (Yes(s.resource) && s.admin.Raises?)
    || (Yes(s.resource) && Yes(s.admin) && (s.hook.Raises? || (No(s.hook) && s.install.Raises?)))
  }

  /** The row after its turn, if it is still there: the final write stamps it, and so does the installation. */
  function Turned(row: Row, s: Script): Option<Row> {
    if Removes(s) then None
    else
      Some(Row(row.group, row.project, row.installed || Installs(s),
               if s.stampOk || Installs(s) then s.now else row.lastSynced))
  }

  /** `t'` is `t` but for row `p`, which is replaced by `row` or gone. */
  ghost predicate ReplacesRow(t: Table, t': Table, p: nat, row: Option<Row>) {
    && (p in t' <==> row.Some?) && (p in t' ==> t'[p] == row.value)
    && forall x :: x != p ==> (x in t' <==> x in t) && (x in t ==> t'[x] == t[x])
  }

  lemma OnlyOneMatches(t: Table, p: nat, r: Resource)
    requires UniqueResources(t) && p in t && NamesOne(t[p]) && ResourceOf(t[p]) == Some(r)
    ensures forall x :: x in t ==> (Matches(t[x], r) <==> x == p)
  {
    forall x | x in t && x != p ensures !Matches(t[x], r) {
      assert Differ(t[p].group, t[x].group) && Differ(t[p].project, t[x].project);
    }
  }

  lemma UpdateReplaces(t: Table, p: nat, r: Resource, installed: Option<bool>, now: int)
    requires p in t && forall x :: x in t ==> (Matches(t[x], r) <==> x == p)
    ensures var row := if installed.Some? then t[p].(installed := installed.value) else t[p];
            UpdateWhere(t, r, installed, now) == t[p := row.(lastSynced := now)]
    ensures DeleteWhere(t, r) == t - {p}
  {
    var row := if installed.Some? then t[p].(installed := installed.value) else t[p];
    assert forall x :: x in t ==> UpdateWhere(t, r, installed, now)[x] == t[p := row.(lastSynced := now)][x];
  }

  lemma CheckedTurns(t: Table, p: nat, row: Row, r: Resource, s: Script)
    requires p in t && (forall x :: x in t ==> (Matches(t[x], r) <==> x == p)) && !row.installed
    ensures Checked(t, row, r, s).0 ==
              if Removes(s) then t - {p}
              else if Installs(s) then t[p := t[p].(installed := true, lastSynced := s.now)] else t
    ensures Checked(t, row, r, s).1 == Abort <==> Escapes(s)
  {
    UpdateReplaces(t, p, r, Some(true), s.now);
  }

  /** What GitLab's replies make of a fetched row: exactly when it gets its webhook, when it is removed, when
      it stays pending, and when an exception ends the run.  No other row is touched, and a row that does not
      name one resource changes nothing and ends the run. */
  lemma TurnDecides(t: Table, p: nat, row: Row, s: Script)
    requires UniqueResources(t) && p in t && SameResource(t, (p, row)) && !row.installed
    ensures NamesOne(row) ==> ReplacesRow(t, Processed(t, row, s).0, p, Turned(t[p], s))
    ensures !NamesOne(row) ==> Processed(t, row, s).0 == t
    ensures Processed(t, row, s).1 == Abort <==> !NamesOne(row) || Escapes(s)
  {
    if NamesOne(row) {
      var r := ResourceOf(row).value;
      OnlyOneMatches(t, p, r);
      CheckedTurns(t, p, row, r, s);
      var t1 := Checked(t, row, r, s).0;
      if p in t1 { UpdateReplaces(t1, p, r, None, s.now); }
    }
  }

  // ---------------------------------------------------------------- the queue over time

  /** `rest` are the rows of the current run still to be processed, as fetched; `size` is how many
      the run fetched and `stamped` how many of them it has stamped or removed so far. */
  datatype Queue = Queue(rows: Table, clock: int, rest: seq<(nat, Row)>, size: nat, stamped: nat)

  datatype Event =
    | Fetch(batch: seq<nat>)             // a run starts
    | Process(s: Script)                 // ... handles its next row
    | Kill                               // ... or dies
    | Write(p: nat, row: Row)            // another user inserts or updates a row
    | Remove(p: nat)                     // ... or deletes one
    | Tick(d: nat)

  ghost predicate Enabled(q: Queue, e: Event) {
    match e
    case Fetch(batch) =>
      && q.rest == [] && IsOldestFirst(q.rows, batch, CHUNK_SIZE)
      && forall p :: p in q.rows ==> q.rows[p].lastSynced < q.clock
    case Process(s) => q.rest != [] && s.now == q.clock
    case Kill => true
    case Write(p, row) =>
      && row.lastSynced == q.clock
      && UniqueResources(q.rows[p := row])
      && (p in q.rows ==> q.rows[p].group == row.group && q.rows[p].project == row.project)
      && (p !in q.rows ==> forall i :: 0 <= i < |q.rest| ==> q.rest[i].0 != p)
    case Remove(_) => true
    case Tick(_) => true
  }

  /** A row of the current run is done with when its stamp was written or the row is gone. */
  predicate Advances(q: Queue, s: Script)
    requires q.rest != []
  {
    ResourceOf(q.rest[0].1).Some? && s.stampOk
  }

  function Apply(q: Queue, e: Event): Queue
    requires e.Process? ==> q.rest != []
  {
    match e
    case Fetch(batch) =>
      q.(rest := seq(|batch|, i requires 0 <= i < |batch| =>
           (batch[i], if batch[i] in q.rows then q.rows[batch[i]] else Row("", "", true, 0))),
         size := |batch|, stamped := 0)
    case Process(s) =>
      var (rows, v) := Processed(q.rows, q.rest[0].1, s);
      q.(rows := rows,
         rest := if v == Abort then [] else q.rest[1..],
         stamped := if Advances(q, s) then q.stamped + 1 else q.stamped)
    case Kill => q.(rest := [])
    case Write(p, row) => q.(rows := q.rows[p := row])
    case Remove(p) => q.(rows := q.rows - {p})
    case Tick(d) => q.(clock := q.clock + d)
  }

  /** The step does nothing to row `p`: it is neither processed nor changed by another user. */
  predicate Leaves(q: Queue, e: Event, p: nat) {
    match e
    case Process(_) => p in q.rows && q.rest != [] && q.rest[0].0 != p && !Concerns(q.rest[0].1, q.rows[p])
    case Write(r, _) => r != p
    case Remove(r) => r != p
    case _ => true
  }

  /** Processing the fetched row `item` writes rows like `row`. */
  predicate Concerns(item: Row, row: Row) {
    ResourceOf(item).Some? && Matches(row, ResourceOf(item).value)
  }

  ghost predicate Inv(q: Queue) {
    && UniqueResources(q.rows)
    && (forall p :: p in q.rows ==> q.rows[p].lastSynced <= q.clock)
    && (forall i, j :: 0 <= i < j < |q.rest| ==> q.rest[i].0 != q.rest[j].0)
    && (forall i :: 0 <= i < |q.rest| ==> SameResource(q.rows, q.rest[i]))
  }

  /** A fetched row that is still in the table still names the same resource. */
  predicate SameResource(t: Table, item: (nat, Row)) {
    item.0 in t ==> t[item.0].group == item.1.group && t[item.0].project == item.1.project
  }

  /** `t'` arises from `t` by deleting rows of resource `r` and by updating others of them at time `now`. */
  ghost predicate Rewrites(t: Table, t': Table, r: Resource, now: int) {
    && (forall x :: x in t' ==> x in t && Rewritten(t[x], t'[x], r, now))
    && (forall x :: x in t && !Matches(t[x], r) ==> x in t')
  }

  predicate Rewritten(row: Row, row': Row, r: Resource, now: int) {
    && row'.group == row.group && row'.project == row.project
    && (row' == row || (row'.lastSynced == now && Matches(row, r)))
  }

  lemma RewritesCompose(t0: Table, t1: Table, t2: Table, r: Resource, now: int)
    requires Rewrites(t0, t1, r, now) && Rewrites(t1, t2, r, now)
    ensures Rewrites(t0, t2, r, now)
  {
    forall x | x in t2 ensures x in t0 && Rewritten(t0[x], t2[x], r, now) {
      assert Rewritten(t0[x], t1[x], r, now) && Rewritten(t1[x], t2[x], r, now);
    }
    forall x | x in t0 && !Matches(t0[x], r) ensures x in t2 {
      assert x in t1 && Rewritten(t0[x], t1[x], r, now);
    }
  }

  lemma WritesRewrite(t: Table, r: Resource, installed: Option<bool>, now: int)
    ensures Rewrites(t, t, r, now)
    ensures Rewrites(t, DeleteWhere(t, r), r, now)
    ensures Rewrites(t, UpdateWhere(t, r, installed, now), r, now)
  {
  }

  lemma CheckedRewrites(t: Table, row: Row, r: Resource, s: Script)
    ensures Rewrites(t, Checked(t, row, r, s).0, r, s.now)
  {
    WritesRewrite(t, r, Some(true), s.now);
    if s.hook.Answer? && s.hook.yes != row.installed {
      WritesRewrite(t, r, Some(s.hook.yes), s.now);
      var t1 := UpdateWhere(t, r, Some(s.hook.yes), s.now);
      WritesRewrite(t1, r, Some(true), s.now);
      var t2 := UpdateWhere(t1, r, Some(true), s.now);
      RewritesCompose(t, t1, t2, r, s.now);
      assert Checked(t, row, r, s).0 in {t, DeleteWhere(t, r), t1, t2};
    } else {
      assert Checked(t, row, r, s).0 in {t, DeleteWhere(t, r), UpdateWhere(t, r, Some(true), s.now)};
    }
  }

  lemma RewritesKeepUnique(t: Table, t': Table, r: Resource, now: int)
    requires UniqueResources(t) && Rewrites(t, t', r, now)
    ensures UniqueResources(t')
  {
    forall x, y | x in t' && y in t' && x != y
      ensures Differ(t'[x].group, t'[y].group) && Differ(t'[x].project, t'[y].project)
    {
      assert Rewritten(t[x], t'[x], r, now) && Rewritten(t[y], t'[y], r, now);
    }
  }

  lemma ProcessedEffect(t: Table, item: (nat, Row), s: Script)
    requires UniqueResources(t) && SameResource(t, item)
    ensures var t' := Processed(t, item.1, s).0;
            && UniqueResources(t')
            && match ResourceOf(item.1) {
                 case None => t' == t
                 case Some(r) =>
                   && Rewrites(t, t', r, s.now)
                   && (s.stampOk && item.0 in t' ==> t'[item.0].lastSynced == s.now)
               }
  {
    if ResourceOf(item.1).Some? {
      var r := ResourceOf(item.1).value;
      var t1 := Checked(t, item.1, r, s).0;
      CheckedRewrites(t, item.1, r, s);
      WritesRewrite(t1, r, None, s.now);
      var t' := Processed(t, item.1, s).0;
      RewritesCompose(t, t1, t', r, s.now);
      RewritesKeepUnique(t, t', r, s.now);
      if item.0 in t' {
        assert Rewritten(t[item.0], t1[item.0], r, s.now);
      }
    }
  }

  lemma StepKeepsInv(q: Queue, e: Event)
    requires Inv(q) && Enabled(q, e)
    ensures Inv(Apply(q, e))
  {
    match e
    case Process(s) =>
      ProcessedEffect(q.rows, q.rest[0], s);
      var q' := Apply(q, e);
      forall i | 0 <= i < |q'.rest| ensures SameResource(q'.rows, q'.rest[i]) {
        assert SameResource(q.rows, q.rest[i + 1]);
      }
    case Fetch(_) =>
    case Kill =>
    case Write(_, _) =>
      var q' := Apply(q, e);
      forall i | 0 <= i < |q'.rest| ensures SameResource(q'.rows, q'.rest[i]) {
        assert SameResource(q.rows, q.rest[i]);
      }
    case Remove(_) =>
      var q' := Apply(q, e);
      forall i | 0 <= i < |q'.rest| ensures SameResource(q'.rows, q'.rest[i]) {
        assert SameResource(q.rows, q.rest[i]);
      }
    case Tick(_) =>
  }

  // ---------------------------------------------------------------- starvation freedom

  /** The pending rows that the query may return no later than `p`. */
  function Ahead(t: Table, p: nat): set<nat>
    requires p in t
  {
    set x | x in t && !t[x].installed && t[x].lastSynced <= t[p].lastSynced
  }

  function Rank(t: Table, p: nat): nat
    requires p in t
  {
    |Ahead(t, p)|
  }

  /** The rows of the current run that come before `p`. */
  function Before(rest: seq<(nat, Row)>, p: nat): set<nat> {
    if rest == [] || rest[0].0 == p then {} else {rest[0].0} + Before(rest[1..], p)
  }

  /** How many rows can still be handled before `p`. */
  function Potential(q: Queue, p: nat): nat
    requires p in q.rows
  {
    |Ahead(q.rows, p) + Before(q.rest, p)|
  }

  ghost predicate Waiting(q: Queue, p: nat) {
    Pending(q.rows, p) && q.rows[p].lastSynced < q.clock
  }

  lemma {:induction false} BeforeIsInRest(rest: seq<(nat, Row)>, p: nat, x: nat)
    requires x in Before(rest, p)
    ensures x != p && exists i :: 0 <= i < |rest| && rest[i].0 == x && forall j :: 0 <= j <= i ==> rest[j].0 != p
  {
    if rest[0].0 == x {
      assert rest[0].0 == x;
    } else {
      BeforeIsInRest(rest[1..], p, x);
      var i :| 0 <= i < |rest[1..]| && rest[1..][i].0 == x && forall j :: 0 <= j <= i ==> rest[1..][j].0 != p;
      assert rest[i + 1].0 == x;
      assert forall j :: 1 <= j <= i + 1 ==> rest[j] == rest[1..][j - 1];
    }
  }

  /** Whatever happens elsewhere, no row moves ahead of a waiting row, and a row that a run is done
      with falls behind it. */
  lemma NobodyOvertakes(q: Queue, e: Event, p: nat)
    requires Inv(q) && Enabled(q, e) && Leaves(q, e, p) && Waiting(q, p)
    ensures var q' := Apply(q, e);
            && Waiting(q', p) && q'.rows[p] == q.rows[p]
            && Ahead(q'.rows, p) <= Ahead(q.rows, p)
            && (e.Process? && Advances(q, e.s) ==> q.rest[0].0 !in Ahead(q'.rows, p))
  {
    if e.Process? {
      ProcessedEffect(q.rows, q.rest[0], e.s);
    }
  }

  lemma FetchedAreAhead(q: Queue, batch: seq<nat>, p: nat)
    requires Inv(q) && Enabled(q, Fetch(batch)) && Waiting(q, p)
    ensures Before(Apply(q, Fetch(batch)).rest, p) <= Ahead(q.rows, p)
  {
    var rest := Apply(q, Fetch(batch)).rest;
    forall x | x in Before(rest, p) ensures x in Ahead(q.rows, p) {
      BeforeIsInRest(rest, p, x);
      var i :| 0 <= i < |rest| && rest[i].0 == x && forall j :: 0 <= j <= i ==> rest[j].0 != p;
      assert batch[i] == x && Pending(q.rows, x);
      if p in batch {
        var j :| 0 <= j < |batch| && batch[j] == p;
        assert rest[j].0 == p;
      }
    }
  }

  /** Each row a run is done with uses up one unit of the potential; nothing ever adds to it. */
  lemma StepUsesPotential(q: Queue, e: Event, p: nat)
    requires Inv(q) && Enabled(q, e) && Leaves(q, e, p) && Waiting(q, p)
    ensures var q' := Apply(q, e);
            Potential(q', p) + (if e.Process? && Advances(q, e.s) then 1 else 0) <= Potential(q, p)
  {
    NobodyOvertakes(q, e, p);
    var q' := Apply(q, e);
    var now, then' := Ahead(q.rows, p) + Before(q.rest, p), Ahead(q'.rows, p) + Before(q'.rest, p);
    match e
    case Fetch(batch) =>
      FetchedAreAhead(q, batch, p);
      SubsetCard(then', now);
    case Process(s) =>
      if q.rest[0].0 in Before(q.rest[1..], p) { BeforeIsInRest(q.rest[1..], p, q.rest[0].0); }
      assert Before(q'.rest, p) <= Before(q.rest[1..], p) <= Before(q.rest, p);
      if Advances(q, s) {
        SubsetCard(then', now - {q.rest[0].0});
      } else {
        SubsetCard(then', now);
      }
    case _ =>
      assert Before(q'.rest, p) <= Before(q.rest, p);
      SubsetCard(then', now);
  }

  /** `qs` is what the queue goes through when `es` happen in order, starting between two runs. */
  ghost predicate IsRun(qs: seq<Queue>, es: seq<Event>) {
    && |qs| == |es| + 1
    && Inv(qs[0]) && qs[0].rest == [] && qs[0].stamped == qs[0].size == 0
    && forall i :: 0 <= i < |es| ==> IsStep(qs, es, i)
  }

  ghost predicate IsStep(qs: seq<Queue>, es: seq<Event>, i: nat)
    requires i < |es| < |qs|
  {
    Enabled(qs[i], es[i]) && qs[i + 1] == Apply(qs[i], es[i])
  }

  /** Step `i` finishes a row: its stamp is written or it is gone. */
  predicate FinishesRow(qs: seq<Queue>, es: seq<Event>, i: nat)
    requires i < |es| < |qs|
  {
    es[i].Process? && qs[i].rest != [] && Advances(qs[i], es[i].s)
  }

  /** Step `i` finishes the last row of a run that finished all the rows it fetched. */
  predicate FinishesRun(qs: seq<Queue>, es: seq<Event>, i: nat)
    requires i < |es| < |qs|
  {
    FinishesRow(qs, es, i) && qs[i + 1].rest == [] && qs[i + 1].stamped == qs[i + 1].size
  }

  /** Step `i` finishes the first row of a run. */
  predicate StartsProgress(qs: seq<Queue>, es: seq<Event>, i: nat)
    requires i < |es| < |qs|
  {
    FinishesRow(qs, es, i) && qs[i].stamped == 0
  }

  ghost function Rows(qs: seq<Queue>, es: seq<Event>, j: nat): nat
    requires j <= |es| < |qs|
  {
    if j == 0 then 0 else Rows(qs, es, j - 1) + if FinishesRow(qs, es, j - 1) then 1 else 0
  }

  ghost function FullRuns(qs: seq<Queue>, es: seq<Event>, j: nat): nat
    requires j <= |es| < |qs|
  {
    if j == 0 then 0 else FullRuns(qs, es, j - 1) + if FinishesRun(qs, es, j - 1) then 1 else 0
  }

  ghost function ProductiveRuns(qs: seq<Queue>, es: seq<Event>, j: nat): nat
    requires j <= |es| < |qs|
  {
    if j == 0 then 0 else ProductiveRuns(qs, es, j - 1) + if StartsProgress(qs, es, j - 1) then 1 else 0
  }

  /** While `p` waits, the current run either still has `p` to come or was filled by rows ahead of it. */
  ghost predicate Crowded(q: Queue, p: nat) {
    && q.stamped + |q.rest| <= q.size
    && (q.rest != [] ==> q.size == CHUNK_SIZE || exists i :: 0 <= i < |q.rest| && q.rest[i].0 == p)
  }

  lemma FetchCrowds(q: Queue, batch: seq<nat>, p: nat)
    requires Enabled(q, Fetch(batch)) && Waiting(q, p)
    ensures Crowded(Apply(q, Fetch(batch)), p)
  {
    var rest := Apply(q, Fetch(batch)).rest;
    assert p in PendingRows(q.rows);
    if p in batch {
      var i :| 0 <= i < |batch| && batch[i] == p;
      assert rest[i].0 == p;
    } else if |batch| != CHUNK_SIZE {
      DistinctCard(batch);
      SubsetCard((set x | x in batch), PendingRows(q.rows));
    }
  }

  lemma StepCrowds(q: Queue, e: Event, p: nat)
    requires Inv(q) && Enabled(q, e) && Leaves(q, e, p) && Waiting(q, p) && Crowded(q, p)
    ensures Crowded(Apply(q, e), p)
  {
    match e
    case Fetch(batch) => FetchCrowds(q, batch, p);
    case Process(_) =>
      var q' := Apply(q, e);
      if q'.rest != [] && q.size != CHUNK_SIZE {
        var i :| 0 <= i < |q.rest| && q.rest[i].0 == p;
        assert q'.rest[i - 1].0 == p;
      }
    case _ =>
  }

  lemma {:induction false} RowAccount(qs: seq<Queue>, es: seq<Event>, p: nat, j: nat)
    requires IsRun(qs, es) && Waiting(qs[0], p) && j <= |es|
    requires forall i :: 0 <= i < j ==> Leaves(qs[i], es[i], p)
    ensures Inv(qs[j]) && Waiting(qs[j], p)
    ensures Potential(qs[j], p) + Rows(qs, es, j) <= Rank(qs[0].rows, p)
    ensures ProductiveRuns(qs, es, j) <= Rows(qs, es, j)
  {
    if j == 0 {
      assert Ahead(qs[0].rows, p) + Before(qs[0].rest, p) == Ahead(qs[0].rows, p);
    } else {
      RowAccount(qs, es, p, j - 1);
      assert IsStep(qs, es, j - 1);
      StepKeepsInv(qs[j - 1], es[j - 1]);
      NobodyOvertakes(qs[j - 1], es[j - 1], p);
      StepUsesPotential(qs[j - 1], es[j - 1], p);
    }
  }

  lemma {:induction false} RunAccount(qs: seq<Queue>, es: seq<Event>, p: nat, j: nat)
    requires IsRun(qs, es) && Waiting(qs[0], p) && j <= |es|
    requires forall i :: 0 <= i < j ==> Leaves(qs[i], es[i], p)
    ensures Crowded(qs[j], p)
    ensures CHUNK_SIZE * FullRuns(qs, es, j) + (if qs[j].rest == [] then 0 else qs[j].stamped) <= Rows(qs, es, j)
  {
    if j > 0 {
      RunAccount(qs, es, p, j - 1);
      RowAccount(qs, es, p, j - 1);
      assert IsStep(qs, es, j - 1);
      StepCrowds(qs[j - 1], es[j - 1], p);
      FullRunIsCrowded(qs, es, p, j - 1);
    }
  }

  lemma FullRunIsCrowded(qs: seq<Queue>, es: seq<Event>, p: nat, i: nat)
    requires i < |es| < |qs| && IsStep(qs, es, i) && Crowded(qs[i], p) && Leaves(qs[i], es[i], p)
    ensures FinishesRun(qs, es, i) ==> qs[i].stamped + 1 == CHUNK_SIZE
  {
  }

  /** Starvation freedom, as a bound on everything that can happen before a waiting row gets its turn:
      at most `rank - 1` other rows are finished, hence fewer than `rank` runs make any progress, and
      the runs that finish their whole batch number fewer than `rank / 100` rounded up. */
  lemma WaitIsBounded(qs: seq<Queue>, es: seq<Event>, p: nat)
    requires IsRun(qs, es) && Waiting(qs[0], p)
    requires forall i :: 0 <= i < |es| ==> Leaves(qs[i], es[i], p)
    ensures Rows(qs, es, |es|) < Rank(qs[0].rows, p)
    ensures ProductiveRuns(qs, es, |es|) < Rank(qs[0].rows, p)
    ensures FullRuns(qs, es, |es|) < (Rank(qs[0].rows, p) + 99) / 100
  {
    RowAccount(qs, es, p, |es|);
    RunAccount(qs, es, p, |es|);
    var q := qs[|es|];
    assert p in Ahead(q.rows, p) + Before(q.rest, p);
  }

  /** The same fact from the row's side: after enough runs, whatever else happened, the row has been
      processed, unless another user changed or removed it. */
  lemma RowGetsItsTurn(qs: seq<Queue>, es: seq<Event>, p: nat)
    requires IsRun(qs, es) && Waiting(qs[0], p)
    requires || ProductiveRuns(qs, es, |es|) >= Rank(qs[0].rows, p)
             || FullRuns(qs, es, |es|) >= (Rank(qs[0].rows, p) + 99) / 100
    ensures exists i :: 0 <= i < |es| && !Leaves(qs[i], es[i], p)
  {
    if forall i :: 0 <= i < |es| ==> Leaves(qs[i], es[i], p) {
      WaitIsBounded(qs, es, p);
    }
  }

  // ---------------------------------------------------------------- rows that block the queue

  /** The row of the current run's head is gone or carries the current time. */
  predicate HeadDone(q: Queue, t: Table)
    requires q.rest != []
  {
    q.rest[0].0 in t ==> t[q.rest[0].0].lastSynced == q.clock
  }

  /** Whatever GitLab answers, if the final write works the first row of a run is restamped or removed
      if and only if it names exactly one resource; otherwise the run ends and nothing changes. */
  lemma HeadRowDecides(q: Queue, s: Script)
    requires Inv(q) && q.rest != [] && q.rest[0].0 in q.rows
    requires q.rows[q.rest[0].0].lastSynced < q.clock && s.now == q.clock && s.stampOk
    ensures HeadDone(q, Apply(q, Process(s)).rows) <==> NamesOne(q.rest[0].1)
    ensures !NamesOne(q.rest[0].1) ==> Apply(q, Process(s)) == q.(rest := [])
  {
    assert SameResource(q.rows, q.rest[0]);
    ProcessedEffect(q.rows, q.rest[0], s);
  }

  /** `m` is pending, older than every other pending row, and names no resource or two. */
  ghost predicate Blocks(t: Table, m: nat) {
    && Pending(t, m) && !NamesOne(t[m])
    && forall x :: Pending(t, x) && x != m ==> t[m].lastSynced < t[x].lastSynced
  }

  /** With such a row the bound fails for good: however many runs follow, none changes any row. */
  lemma {:induction false} MalformedRowStarvesAll(qs: seq<Queue>, es: seq<Event>, m: nat, j: nat)
    requires IsRun(qs, es) && Blocks(qs[0].rows, m) && j <= |es|
    requires forall i :: 0 <= i < |es| ==> !es[i].Write? && !es[i].Remove?
    ensures qs[j].rows == qs[0].rows && Rows(qs, es, j) == 0
    ensures qs[j].rest != [] ==> qs[j].rest[0] == (m, qs[0].rows[m])
  {
    if j > 0 {
      MalformedRowStarvesAll(qs, es, m, j - 1);
      var q, e := qs[j - 1], es[j - 1];
      assert IsStep(qs, es, j - 1);
      if e.Fetch? {
        assert m in PendingRows(q.rows);
        assert e.batch[0] == m;
      }
    }
  }
}
