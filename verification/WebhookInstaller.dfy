/** One run of the webhook installer, as the program performs it: the table operations, the checks on
    one row, and the loop over a batch, each proved to do what `WebhookQueue` says of it. */
module WebhookInstaller {
  import opened Prelude
  import opened WebhookQueue

  class GitlabWebhookStore {
    var rows: Table

    constructor (rows: Table)
      ensures this.rows == rows
    {
      this.rows := rows;
    }

    /** False stands for the exception raised when the row does not name exactly one resource. */
    method UpdateWebhook(row: Row, installed: Option<bool>, now: int) returns (ok: bool)
      modifies this
      ensures ok == ResourceOf(row).Some?
      ensures rows == if ok then UpdateWhere(old(rows), ResourceOf(row).value, installed, now) else old(rows)
    {
      match ResourceOf(row)
      case None => ok := false;
      case Some(r) =>
        ok := true;
        rows := map q | q in rows ::
          if Matches(rows[q], r)
          then rows[q].(installed := if installed.Some? then installed.value else rows[q].installed, lastSynced := now)
          else rows[q];
    }

    method UpdateLastSynced(row: Row, now: int) returns (ok: bool)
      modifies this
      ensures ok == ResourceOf(row).Some?
      ensures rows == if ok then UpdateWhere(old(rows), ResourceOf(row).value, None, now) else old(rows)
    {
      ok := UpdateWebhook(row, None, now);
    }

    method DeleteWebhook(row: Row) returns (ok: bool)
      modifies this
      ensures ok == ResourceOf(row).Some?
      ensures rows == if ok then DeleteWhere(old(rows), ResourceOf(row).value) else old(rows)
    {
      match ResourceOf(row)
      case None => ok := false;
      case Some(r) =>
        ok := true;
        rows := map q | q in rows && !Matches(rows[q], r) :: rows[q];
    }

    /** The rows to process; ties between equal stamps are broken arbitrarily. */
    method FilterRows(limit: nat) returns (batch: seq<nat>)
      ensures IsOldestFirst(rows, batch, limit)
    {
      var todo := PendingRows(rows);
      batch := [];
      while todo != {} && |batch| < limit
        invariant Picked(rows, batch, todo) && |batch| <= limit
        decreases todo
      {
        OldestExists(rows, todo);
        var p :| p in todo && forall x :: x in todo ==> rows[p].lastSynced <= rows[x].lastSynced;
        PickOldest(rows, batch, todo, p);
        batch := batch + [p];
        todo := todo - {p};
      }
    }
  }

  /** `batch` holds the oldest pending rows in order, and `todo` the others. */
  ghost predicate Picked(t: Table, batch: seq<nat>, todo: set<nat>) {
    && todo <= PendingRows(t) && |batch| + |todo| == |PendingRows(t)|
    && Distinct(batch)
    && (forall i :: 0 <= i < |batch| ==> Pending(t, batch[i]) && batch[i] !in todo)
    && (forall p :: Pending(t, p) ==> p in batch || p in todo)
    && (forall i, j :: 0 <= i < j < |batch| ==> t[batch[i]].lastSynced <= t[batch[j]].lastSynced)
    && (forall i, p :: 0 <= i < |batch| && p in todo ==> t[batch[i]].lastSynced <= t[p].lastSynced)
  }

  lemma PickOldest(t: Table, batch: seq<nat>, todo: set<nat>, p: nat)
    requires Picked(t, batch, todo) && p in todo && forall x :: x in todo && x in t ==>
              t[p].lastSynced <= t[x].lastSynced
    ensures Picked(t, batch + [p], todo - {p})
  {
    var batch' := batch + [p];
    forall x | Pending(t, x) ensures x in batch' || x in todo - {p} {
      if x in batch { assert x in batch'; }
      assert batch'[|batch|] == p;
    }
  }

  lemma {:induction false} OldestExists(t: Table, ps: set<nat>)
    requires ps != {} && ps <= t.Keys
    ensures exists p :: p in ps && forall x :: x in ps ==> t[p].lastSynced <= t[x].lastSynced
  {
    var p :| p in ps;
    if ps != {p} {
      OldestExists(t, ps - {p});
      var r :| r in ps - {p} && forall x :: x in ps - {p} ==> t[r].lastSynced <= t[x].lastSynced;
      var oldest := if t[p].lastSynced <= t[r].lastSynced then p else r;
      assert forall x :: x in ps ==> x == p || x in ps - {p};
      assert forall x :: x in ps ==> t[oldest].lastSynced <= t[x].lastSynced;
    }
  }

  /** How a check ends: go on, stop with this row, or let an exception out. */
  datatype Signal = Next | Break | Raise

  /** `check_if_resource_exists` and `check_if_user_has_admin_acccess_to_resource` */
  method CheckOrDelete(store: GitlabWebhookStore, row: Row, reply: Reply) returns (signal: Signal)
    modifies store
    ensures signal == if reply.Raises? then Raise else if !reply.rateLimited && reply.yes then Next
                      else if !reply.rateLimited && ResourceOf(row).None? then Raise else Break
    ensures store.rows == if reply.Answer? && !reply.rateLimited && !reply.yes && ResourceOf(row).Some?
                          then DeleteWhere(old(store.rows), ResourceOf(row).value) else old(store.rows)
  {
    if reply.Raises? {
      return Raise;
    }
    if reply.rateLimited {
      return Break;
    }
    if !reply.yes {
      var ok := store.DeleteWebhook(row);
      return if ok then Break else Raise;
    }
    signal := Next;
  }

  /** `check_if_webhook_already_exists_on_resource` */
  method CheckHook(store: GitlabWebhookStore, row: Row, reply: Reply, now: int) returns (signal: Signal)
    requires ResourceOf(row).Some?
    modifies store
    ensures signal == if reply.Raises? then Raise else if reply.rateLimited || reply.yes then Break else Next
    ensures store.rows == if reply.Answer? && !reply.rateLimited && reply.yes != row.installed
                          then UpdateWhere(old(store.rows), ResourceOf(row).value, Some(reply.yes), now)
                          else old(store.rows)
  {
    if reply.Raises? {
      return Raise;
    }
    if reply.rateLimited {
      return Break;
    }
    if reply.yes != row.installed {
      var _ := store.UpdateWebhook(row, Some(reply.yes), now);
    }
    signal := if reply.yes then Break else Next;
  }

  /** `create_new_webhook` */
  method CreateNewWebhook(store: GitlabWebhookStore, row: Row, reply: Reply, now: int) returns (signal: Signal)
    requires ResourceOf(row).Some?
    modifies store
    ensures signal == if reply.Raises? then Raise else if reply.rateLimited then Break else Next
    ensures store.rows == if reply.Answer? && !reply.rateLimited && reply.yes
                          then UpdateWhere(old(store.rows), ResourceOf(row).value, Some(true), now)
                          else old(store.rows)
  {
    if reply.Raises? {
      return Raise;
    }
    if reply.rateLimited {
      return Break;
    }
    if reply.yes {
      var _ := store.UpdateWebhook(row, Some(true), now);
    }
    signal := Next;
  }

  /** The body of the `try` for one row. */
  method TryRow(store: GitlabWebhookStore, row: Row, s: Script) returns (signal: Signal)
    modifies store
    ensures match ResourceOf(row)
            case None => signal == Raise && store.rows == old(store.rows)
            case Some(r) =>
              && store.rows == Checked(old(store.rows), row, r, s).0
              && (signal == Raise <==> Checked(old(store.rows), row, r, s).1 == Abort)
  {
    if ResourceOf(row).None? || !s.serviceOk {
      return Raise;
    }
    signal := CheckOrDelete(store, row, s.resource);
    if signal != Next { return; }
    signal := CheckOrDelete(store, row, s.admin);
    if signal != Next { return; }
    signal := CheckHook(store, row, s.hook, s.now);
    if signal != Next { return; }
    signal := CreateNewWebhook(store, row, s.install, s.now);
  }

  /** Row `p` of the table was pending when it was fetched as `row`. */
  ghost predicate IsFetched(t: Table, p: nat, row: Row) {
    UniqueResources(t) && p in t && SameResource(t, (p, row)) && !row.installed
  }

  /** One row with its `except` and `finally` parts: the stamp is written whatever happened before. */
  method ProcessRow(store: GitlabWebhookStore, row: Row, s: Script) returns (verdict: Verdict)
    modifies store
    ensures (store.rows, verdict) == Processed(old(store.rows), row, s)
    ensures verdict == Abort <==> !NamesOne(row) || Escapes(s)
    ensures forall p :: IsFetched(old(store.rows), p, row) && NamesOne(row) ==>
              ReplacesRow(old(store.rows), store.rows, p, Turned(old(store.rows)[p], s))
  {
    forall p | IsFetched(store.rows, p, row) && NamesOne(row)
      ensures ReplacesRow(store.rows, Processed(store.rows, row, s).0, p, Turned(store.rows[p], s))
    {
      TurnDecides(store.rows, p, row, s);
    }
    var signal := TryRow(store, row, s);
    if s.stampOk {
      var _ := store.UpdateLastSynced(row, s.now);
    }
    verdict := if signal == Raise then Abort else Continue;
  }

  /** The table after a run over `items`, given what happens for each of them. */
  function RunRows(t: Table, items: seq<(nat, Row)>, scripts: seq<Script>): Table
    requires |items| <= |scripts|
  {
    if items == [] then t
    else
      var (t1, v) := Processed(t, items[0].1, scripts[0]);
      if v == Abort then t1 else RunRows(t1, items[1..], scripts[1..])
  }

  /** The run comes to row `i`, and it can be checked: it and those before it name one resource each, and none of
      those lets an exception out. */
  ghost predicate HasTurn(items: seq<(nat, Row)>, scripts: seq<Script>, i: nat) {
    && i < |items| <= |scripts| && NamesOne(items[i].1)
    && forall j :: 0 <= j < i ==> NamesOne(items[j].1) && !Escapes(scripts[j])
  }

  predicate BecomesRow(t': Table, p: nat, row: Option<Row>) {
    (p in t' <==> row.Some?) && (p in t' ==> t'[p] == row.value)
  }

  /** A row that has its turn becomes what the replies make of it; every other row stays as it is. */
  ghost predicate RunDecides(t: Table, t': Table, items: seq<(nat, Row)>, scripts: seq<Script>, p: nat) {
    && (forall i: nat :: HasTurn(items, scripts, i) && items[i].0 == p ==>
          p in t && BecomesRow(t', p, Turned(t[p], scripts[i])))
    && ((forall i: nat :: HasTurn(items, scripts, i) ==> items[i].0 != p) ==>
          BecomesRow(t', p, if p in t then Some(t[p]) else None))
  }

  /** Different rows, pending and fetched from the table. */
  ghost predicate AreFetched(t: Table, items: seq<(nat, Row)>) {
    && UniqueResources(t)
    && (forall i, j :: 0 <= i < j < |items| ==> items[i].0 != items[j].0)
    && forall i :: 0 <= i < |items| ==> IsFetched(t, items[i].0, items[i].1)
  }

  lemma FetchedStay(t: Table, items: seq<(nat, Row)>, s: Script)
    requires AreFetched(t, items) && items != []
    ensures AreFetched(Processed(t, items[0].1, s).0, items[1..])
  {
    var t1 := Processed(t, items[0].1, s).0;
    assert IsFetched(t, items[0].0, items[0].1);
    TurnDecides(t, items[0].0, items[0].1, s);
    ProcessedEffect(t, items[0], s);
    forall i | 0 <= i < |items[1..]| ensures IsFetched(t1, items[1..][i].0, items[1..][i].1) {
      assert IsFetched(t, items[i + 1].0, items[i + 1].1) && items[i + 1].0 != items[0].0;
    }
  }

  lemma TurnsShift(items: seq<(nat, Row)>, scripts: seq<Script>, i: nat)
    requires items != [] && |items| <= |scripts| && NamesOne(items[0].1) && !Escapes(scripts[0])
    ensures HasTurn(items[1..], scripts[1..], i) <==> HasTurn(items, scripts, i + 1)
  {
    if HasTurn(items[1..], scripts[1..], i) {
      forall j | 0 <= j < i + 1 ensures NamesOne(items[j].1) && !Escapes(scripts[j]) {
        if j > 0 { assert items[1..][j - 1] == items[j] && scripts[1..][j - 1] == scripts[j]; }
      }
    }
    if HasTurn(items, scripts, i + 1) {
      forall j | 0 <= j < i ensures NamesOne(items[1..][j].1) && !Escapes(scripts[1..][j]) {
        assert items[1..][j] == items[j + 1] && scripts[1..][j] == scripts[j + 1];
      }
    }
  }

  lemma {:induction false} RunTurns(t: Table, items: seq<(nat, Row)>, scripts: seq<Script>, p: nat)
    requires AreFetched(t, items) && |items| <= |scripts|
    ensures RunDecides(t, RunRows(t, items, scripts), items, scripts, p)
    decreases |items|
  {
    if items != [] {
      var (q, row) := items[0];
      var t1, t' := Processed(t, row, scripts[0]).0, RunRows(t, items, scripts);
      assert IsFetched(t, q, row);
      TurnDecides(t, q, row, scripts[0]);
      if !NamesOne(row) || Escapes(scripts[0]) {
        assert NamesOne(row) ==> HasTurn(items, scripts, 0);
        forall i: nat | i > 0 ensures !HasTurn(items, scripts, i) {
        }
      } else {
        FetchedStay(t, items, scripts[0]);
        RunTurns(t1, items[1..], scripts[1..], p);
        forall i: nat ensures HasTurn(items[1..], scripts[1..], i) <==> HasTurn(items, scripts, i + 1) {
          TurnsShift(items, scripts, i);
        }
        AfterFirst(t, t1, t', items, scripts, p);
      }
    }
  }

  lemma AfterFirst(t: Table, t1: Table, t': Table, items: seq<(nat, Row)>, scripts: seq<Script>, p: nat)
    requires AreFetched(t, items) && items != [] && |items| <= |scripts|
    requires ReplacesRow(t, t1, items[0].0, Turned(t[items[0].0], scripts[0]))
    requires NamesOne(items[0].1) && !Escapes(scripts[0])
    requires RunDecides(t1, t', items[1..], scripts[1..], p)
    requires forall i: nat :: HasTurn(items[1..], scripts[1..], i) <==> HasTurn(items, scripts, i + 1)
    ensures RunDecides(t, t', items, scripts, p)
  {
    assert HasTurn(items, scripts, 0);
    if items[0].0 == p {
      forall i: nat | HasTurn(items[1..], scripts[1..], i) ensures items[1..][i].0 != p {
        assert items[i + 1].0 != items[0].0;
      }
      forall i: nat | HasTurn(items, scripts, i) && items[i].0 == p ensures i == 0 {
      }
    } else {
      forall i: nat | HasTurn(items, scripts, i) && items[i].0 == p
        ensures BecomesRow(t', p, Turned(t[p], scripts[i]))
      {
        assert HasTurn(items[1..], scripts[1..], i - 1) && items[1..][i - 1] == items[i];
      }
      if forall i: nat :: HasTurn(items, scripts, i) ==> items[i].0 != p {
        forall i: nat | HasTurn(items[1..], scripts[1..], i) ensures items[1..][i].0 != p {
          assert HasTurn(items, scripts, i + 1) && items[1..][i] == items[i + 1];
        }
      }
    }
  }

  lemma BatchTurns(t: Table, batch: seq<nat>, items: seq<(nat, Row)>, scripts: seq<Script>)
    requires UniqueResources(t) && IsOldestFirst(t, batch, CHUNK_SIZE) && |batch| == |items| <= |scripts|
    requires forall i :: 0 <= i < |batch| ==> batch[i] in t && items[i] == (batch[i], t[batch[i]])
    ensures forall p :: RunDecides(t, RunRows(t, items, scripts), items, scripts, p)
  {
    forall i | 0 <= i < |items| ensures IsFetched(t, items[i].0, items[i].1) {
      assert Pending(t, batch[i]);
    }
    forall p ensures RunDecides(t, RunRows(t, items, scripts), items, scripts, p) {
      RunTurns(t, items, scripts, p);
    }
  }

  /** A whole run.  An exception that is not a `BreakLoopException` ends it after the row is stamped. */
  method InstallWebhooks(store: GitlabWebhookStore, scripts: seq<Script>)
    returns (batch: seq<nat>, ghost items: seq<(nat, Row)>)
    requires |scripts| >= CHUNK_SIZE
    modifies store
    ensures IsOldestFirst(old(store.rows), batch, CHUNK_SIZE)
    ensures |items| == |batch|
    ensures forall i :: 0 <= i < |batch| ==> items[i] == (batch[i], old(store.rows)[batch[i]])
    ensures store.rows == RunRows(old(store.rows), items, scripts)
    ensures UniqueResources(old(store.rows)) ==>
              forall p :: RunDecides(old(store.rows), store.rows, items, scripts, p)
  {
    batch := store.FilterRows(CHUNK_SIZE);
    var fetched: seq<(nat, Row)> :=
      seq(|batch|, i requires 0 <= i < |batch| reads store =>
            if batch[i] in store.rows then (batch[i], store.rows[batch[i]]) else (0, Row("", "", true, 0)));
    items := fetched;
    ghost var start := store.rows;
    if UniqueResources(start) {
      BatchTurns(start, batch, items, scripts);
    }
    var i := 0;
    while i < |fetched|
      invariant 0 <= i <= |fetched|
      invariant RunRows(start, items, scripts) == RunRows(store.rows, items[i..], scripts[i..])
    {
      assert items[i..][1..] == items[i + 1..] && scripts[i..][1..] == scripts[i + 1..];
      var verdict := ProcessRow(store, fetched[i].1, scripts[i]);
      if verdict == Abort {
        return;
      }
      i := i + 1;
    }
  }

  // ---------------------------------------------------------------- the program's runs in the queue

  lemma ExtendRun(qs: seq<Queue>, es: seq<Event>, e: Event)
    requires IsRun(qs, es) && Enabled(qs[|es|], e)
    ensures IsRun(qs + [Apply(qs[|es|], e)], es + [e])
    ensures SameCounts(qs, es, qs + [Apply(qs[|es|], e)], es + [e])
  {
    var qs', es' := qs + [Apply(qs[|es|], e)], es + [e];
    forall i | 0 <= i < |es'| ensures IsStep(qs', es', i) {
      if i < |es| { assert IsStep(qs, es, i); }
    }
    CountsOfPrefix(qs, es, qs', es', |es|);
  }

  /** Over its first steps the longer run counts what the shorter one counts. */
  ghost predicate SameCounts(qs: seq<Queue>, es: seq<Event>, qs': seq<Queue>, es': seq<Event>)
    requires |es| < |qs| && |es'| < |qs'| && es <= es'
  {
    ProductiveRuns(qs', es', |es|) == ProductiveRuns(qs, es, |es|) && FullRuns(qs', es', |es|) == FullRuns(qs, es, |es|)
  }

  lemma {:induction false} CountsOfPrefix(qs: seq<Queue>, es: seq<Event>, qs': seq<Queue>, es': seq<Event>, j: nat)
    requires |es| < |qs| && |es'| < |qs'| && es <= es' && qs <= qs' && j <= |es|
    ensures ProductiveRuns(qs', es', j) == ProductiveRuns(qs, es, j) && FullRuns(qs', es', j) == FullRuns(qs, es, j)
  {
    if j > 0 { CountsOfPrefix(qs, es, qs', es', j - 1); }
  }

  /** The times at which the rows are processed: in order, and none before `from`. */
  ghost predicate Clocked(scripts: seq<Script>, from: int) {
    && (forall i :: 0 <= i < |scripts| ==> from <= scripts[i].now)
    && forall i, j :: 0 <= i < j < |scripts| ==> scripts[i].now <= scripts[j].now
  }

  /** How many productive and full runs there are when the rest of a run has been processed like this. */
  ghost predicate Advanced(q: Queue, scripts: seq<Script>, before: (nat, nat), after: (nat, nat))
    requires |q.rest| <= |scripts|
  {
    && before.0 <= after.0 && before.1 <= after.1
    && (q.rest != [] && q.stamped == 0 && Advances(q, scripts[0]) ==> before.0 < after.0)
    && (q.rest != [] && q.stamped + |q.rest| == q.size && Smooth(q.rows, q.rest, scripts) ==> before.1 < after.1)
  }

  /** Every row is finished and no exception ends the run early. */
  predicate Smooth(t: Table, items: seq<(nat, Row)>, scripts: seq<Script>)
    requires |items| <= |scripts|
  {
    items == [] ||
    (var (t1, v) := Processed(t, items[0].1, scripts[0]);
     v == Continue && ResourceOf(items[0].1).Some? && scripts[0].stampOk && Smooth(t1, items[1..], scripts[1..]))
  }

  ghost function Counts(qs: seq<Queue>, es: seq<Event>): (nat, nat)
    requires |es| < |qs|
  {
    (ProductiveRuns(qs, es, |es|), FullRuns(qs, es, |es|))
  }

  /** One row: the clock moves on to the time of its script, and the row is processed. */
  lemma ProcessNext(qs: seq<Queue>, es: seq<Event>, s: Script) returns (qs': seq<Queue>, es': seq<Event>)
    requires IsRun(qs, es) && qs[|es|].rest != [] && qs[|es|].clock <= s.now
    ensures IsRun(qs', es') && qs <= qs' && es <= es' && |es'| == |es| + 2
    ensures qs'[|es'|] == Apply(qs[|es|].(clock := s.now), Process(s))
    ensures var q, before, after := qs[|es|], Counts(qs, es), Counts(qs', es');
            && after.0 == before.0 + (if Advances(q, s) && q.stamped == 0 then 1 else 0)
            && after.1 == before.1
                + (if Advances(q, s) && qs'[|es'|].rest == [] && q.stamped + 1 == q.size then 1 else 0)
  {
    var q := qs[|es|];
    var q1 := Apply(q, Tick(s.now - q.clock));
    ExtendRun(qs, es, Tick(s.now - q.clock));
    var qs1, es1 := qs + [q1], es + [Tick(s.now - q.clock)];
    assert Counts(qs1, es1) == Counts(qs, es);
    ExtendRun(qs1, es1, Process(s));
    qs', es' := qs1 + [Apply(q1, Process(s))], es1 + [Process(s)];
  }

  lemma {:induction false} ProcessRest(qs: seq<Queue>, es: seq<Event>, scripts: seq<Script>)
    returns (qs': seq<Queue>, es': seq<Event>)
    requires IsRun(qs, es) && |qs[|es|].rest| <= |scripts| && Clocked(scripts, qs[|es|].clock)
    ensures IsRun(qs', es') && qs <= qs' && es <= es' && qs'[|es'|].rest == []
    ensures qs'[|es'|].rows == RunRows(qs[|es|].rows, qs[|es|].rest, scripts)
    ensures Advanced(qs[|es|], scripts, Counts(qs, es), Counts(qs', es'))
    decreases |qs[|es|].rest|
  {
    var q := qs[|es|];
    if q.rest == [] {
      qs', es' := qs, es;
    } else {
      var qs1, es1 := ProcessNext(qs, es, scripts[0]);
      qs', es' := ProcessRest(qs1, es1, scripts[1..]);
    }
  }

  /** The program starts a run at time `at`, after every stamp in the table, and fetches `batch`. */
  ghost predicate Starts(q: Queue, at: int, batch: seq<nat>, items: seq<(nat, Row)>, scripts: seq<Script>) {
    && q.rest == [] && q.clock <= at && (forall p :: p in q.rows ==> q.rows[p].lastSynced < at)
    && IsOldestFirst(q.rows, batch, CHUNK_SIZE) && |items| == |batch| <= |scripts|
    && (forall i :: 0 <= i < |batch| ==> items[i] == (batch[i], q.rows[batch[i]]))
    && Clocked(scripts, at)
  }

  /** The longer run of the queue adds to the shorter one exactly what the program does: its table is the
      program's.  It is productive if the oldest row names one resource and its stamp is written, and
      complete if no row fails. */
  ghost predicate AddsProgramRun(qs: seq<Queue>, es: seq<Event>, qs': seq<Queue>, es': seq<Event>,
                                 items: seq<(nat, Row)>, scripts: seq<Script>)
    requires |es| < |qs| && |items| <= |scripts|
  {
    && IsRun(qs', es') && qs <= qs' && es <= es' && qs'[|es'|].rest == []
    && qs'[|es'|].rows == RunRows(qs[|es|].rows, items, scripts)
    && var before, after := Counts(qs, es), Counts(qs', es');
       && before.0 <= after.0 && before.1 <= after.1
       && (items != [] && NamesOne(items[0].1) && scripts[0].stampOk ==> before.0 < after.0)
       && (items != [] && Smooth(qs[|es|].rows, items, scripts) ==> before.1 < after.1)
  }

  /** What `InstallWebhooks` does is one more run of the queue, after any run that has come to the end of
      a batch. */
  lemma ProgramRunIsQueueRun(qs: seq<Queue>, es: seq<Event>, at: int, batch: seq<nat>, items: seq<(nat, Row)>,
                             scripts: seq<Script>)
    requires IsRun(qs, es) && Starts(qs[|es|], at, batch, items, scripts)
    ensures exists qs', es' :: AddsProgramRun(qs, es, qs', es', items, scripts)
  {
    var q := qs[|es|];
    var q1 := Apply(q, Tick(at - q.clock));
    ExtendRun(qs, es, Tick(at - q.clock));
    var qs1, es1 := qs + [q1], es + [Tick(at - q.clock)];
    assert Counts(qs1, es1) == Counts(qs, es);
    ExtendRun(qs1, es1, Fetch(batch));
    var q2 := Apply(q1, Fetch(batch));
    assert q2.rest == items;
    var qs2, es2 := qs1 + [q2], es1 + [Fetch(batch)];
    assert Counts(qs2, es2) == Counts(qs1, es1);
    var qs', es' := ProcessRest(qs2, es2, scripts);
    assert AddsProgramRun(qs, es, qs', es', items, scripts);
  }

  /** Starvation freedom for the program: when all but one of the productive runs that a waiting row's
      rank allows have passed without it, the next run of the program gives it its turn, if the oldest
      row names one resource and its stamp is written. */
  lemma ProgramServesRow(qs: seq<Queue>, es: seq<Event>, at: int, batch: seq<nat>, items: seq<(nat, Row)>,
                         scripts: seq<Script>, p: nat)
    requires IsRun(qs, es) && Starts(qs[|es|], at, batch, items, scripts)
    requires Waiting(qs[0], p) && forall i :: 0 <= i < |es| ==> Leaves(qs[i], es[i], p)
    requires ProductiveRuns(qs, es, |es|) + 1 >= Rank(qs[0].rows, p)
    requires items != [] ==> NamesOne(items[0].1) && scripts[0].stampOk
    ensures exists qs', es' ::
              && AddsProgramRun(qs, es, qs', es', items, scripts)
              && exists i :: |es| <= i < |es'| && !Leaves(qs'[i], es'[i], p)
  {
    RowAccount(qs, es, p, |es|);
    assert p in PendingRows(qs[|es|].rows);
    ProgramRunIsQueueRun(qs, es, at, batch, items, scripts);
    var qs', es' :| AddsProgramRun(qs, es, qs', es', items, scripts);
    forall i | 0 <= i < |es| ensures Leaves(qs'[i], es'[i], p) {
      assert qs'[i] == qs[i] && es'[i] == es[i];
    }
    RowGetsItsTurn(qs', es', p);
  }
}
