/** The build pipeline over four tables: bugs, cached kernel builds, base images and developer patches.
    Submitters, pollers, image builders and patch analysers run concurrently and may stop at any
    await; each event is what one of them does between two awaits.  The invariant says where every
    row of a later table comes from, and that no image is ever built by two tasks. */
module BuildPipeline {
  import opened KArenaModels
  import opened Prelude

  datatype BugStatus = OpenBug | FixedBug

  function BaseCommitFor(status: BugStatus): BaseCommit {
    if status == FixedBug then ParentCommit else CrashCommit
  }

  /** Both build tables have at most one row for a bug and a base commit. */
  datatype Key = Key(bug: string, commit: BaseCommit)

  /** An empty `job` means that the submission failed.  A missing evaluation means not polled yet; `report`
      is the crash report of a reproduced bug, if a poll could download it. */
  datatype KCache = KCache(job: string, success: bool, storageKey: Option<string>, evaluation: Option<Evaluation>,
                           report: Option<string>)

  datatype ImageStatus = Pending | Building | Built | Pushed | Error

  datatype Image = Image(status: ImageStatus, builtTime: Option<int>, pushedTime: Option<int>)

  /** What a finished job says: the verdict, the key under which the build was stored, and the report that
      can be downloaded. */
  datatype JobResult = JobResult(evaluation: Evaluation, storageKey: Option<string>, report: Option<string>)

  // ---------------------------------------------------------------- table operations

  /** Only a reproduced bug has a report to look for. */
  function ReportOf(result: JobResult): Option<string> {
    if result.evaluation == Reproduced then result.report else None
  }

  /** The row inserted for a submission; an empty job means that it failed. */
  function Submitted(job: string): KCache {
    KCache(job, job != "", None, None, None)
  }

  /** The row written back by a poll of a finished job, with the report it got. */
  function Polled(row: KCache, result: JobResult, report: Option<string>): KCache {
    var buildFailed := result.evaluation == CompilationError || result.storageKey.None?;
    row.(success := !buildFailed, storageKey := result.storageKey, evaluation := Some(result.evaluation),
         report := report)
  }

  predicate AwaitsPoll(row: KCache) {
    row.success && row.evaluation.None?
  }

  predicate NeedsKCache(bugs: map<string, BugStatus>, kcache: map<Key, KCache>, status: BugStatus, bug: string) {
    bug in bugs && bugs[bug] == status && Key(bug, BaseCommitFor(status)) !in kcache
  }

  predicate NeedsImage(bugs: map<string, BugStatus>, kcache: map<Key, KCache>, images: map<Key, Image>,
                       status: BugStatus, bug: string) {
    var k := Key(bug, BaseCommitFor(status));
    && bug in bugs && bugs[bug] == status
    && k in kcache && kcache[k].success && kcache[k].evaluation == Some(Reproduced)
    && k !in images
  }

  predicate NeedsDeveloperPatch(bugs: map<string, BugStatus>, images: map<Key, Image>, patches: seq<string>,
                                bug: string) {
    var k := Key(bug, ParentCommit);
    && bug in bugs && bugs[bug] == FixedBug
    && k in images && images[k].status in {Built, Pushed}
    && bug !in patches
  }

  function Coalesce(a: Option<int>, b: Option<int>): Option<int> {
    if a.Some? then a else b
  }

  function SetState(row: Image, status: ImageStatus, built: Option<int>, pushed: Option<int>): Image {
    Image(status, Coalesce(built, row.builtTime), Coalesce(pushed, row.pushedTime))
  }

  datatype BuildResult = BuildSucceeded(push: bool) | BuildRaised

  function Marked(row: Image, result: BuildResult, now: int): Image {
    match result
    case BuildSucceeded(true) => SetState(row, Pushed, Some(now), Some(now))
    case BuildSucceeded(false) => SetState(row, Built, Some(now), None)
    case BuildRaised => SetState(row, Error, None, None)
  }

  // ---------------------------------------------------------------- cached builds

  /** One row's share of a polling pass: selected, or with the job read and the report looked for. */
  datatype Poll = Selected(k: Key) | Fetched(k: Key, result: JobResult, report: Option<string>)

  /** - `jobs`: the results of the jobs that have finished; a finished job never changes
      - `unreadable`: the finished jobs on which interpreting the result raises
      - `submitting`: rows some submitter has selected, perhaps long ago
      - `polls`: the polling tasks of all passes under way */
  datatype Cache = Cache(rows: map<Key, KCache>, jobs: map<string, JobResult>, unreadable: set<string>,
                         submitting: set<Key>, polls: map<nat, Poll>)

  datatype CacheEvent =
    | SelectForKCache(bugs: map<string, BugStatus>, status: BugStatus)
    | InsertKCache(k: Key, job: string)          // an empty job: the submission failed
    | JobFinishes(job: string, result: JobResult)
    | JobBreaks(job: string)                     // it finishes, but its result cannot be interpreted
    | SelectForPoll(t: nat, k: Key)
    | ReadJob(t: nat, downloads: bool)
    | WritePoll(t: nat)
    | EndPoll(t: nat)                            // the job still runs, or an exception

  predicate CacheEnabled(c: Cache, e: CacheEvent) {
    match e
    case SelectForKCache(_, _) => true
    case InsertKCache(k, _) => k in c.submitting
    case JobFinishes(job, _) => job !in c.jobs && job !in c.unreadable && job != ""
    case JobBreaks(job) => job !in c.jobs && job !in c.unreadable && job != ""
    case SelectForPoll(t, k) => t !in c.polls && k in c.rows && AwaitsPoll(c.rows[k])
    case ReadJob(t, _) =>
      t in c.polls && c.polls[t].Selected? && c.polls[t].k in c.rows && c.rows[c.polls[t].k].job in c.jobs
    case WritePoll(t) => t in c.polls && c.polls[t].Fetched?
    case EndPoll(t) => t in c.polls
  }

  function ApplyCache(c: Cache, e: CacheEvent): Cache
    requires CacheEnabled(c, e)
  {
    match e
    case SelectForKCache(bugs, status) =>
      c.(submitting := c.submitting +
           set b | b in bugs && bugs[b] == status && Key(b, BaseCommitFor(status)) !in c.rows
           :: Key(b, BaseCommitFor(status)))
    case InsertKCache(k, job) =>
      if k in c.rows then c  // the unique constraint raises
      else c.(rows := c.rows[k := Submitted(job)])
    case JobFinishes(job, result) => c.(jobs := c.jobs[job := result])
    case JobBreaks(job) => c.(unreadable := c.unreadable + {job})
    case SelectForPoll(t, k) => c.(polls := c.polls[t := Selected(k)])
    case ReadJob(t, downloads) =>
      var k := c.polls[t].k;
      var result := c.jobs[c.rows[k].job];
      c.(polls := c.polls[t := Fetched(k, result, if downloads then ReportOf(result) else None)])
    case WritePoll(t) =>
      var p := c.polls[t];
      c.(rows := if p.k in c.rows then c.rows[p.k := Polled(c.rows[p.k], p.result, p.report)] else c.rows,
         polls := c.polls - {t})
    case EndPoll(t) => c.(polls := c.polls - {t})
  }

  /** The build succeeded, reproduces the bug and is stored. */
  predicate Usable(c: Cache, k: Key) {
    && k in c.rows
    && c.rows[k].success && c.rows[k].evaluation == Some(Reproduced) && c.rows[k].storageKey.Some?
  }

  predicate IsReport(report: Option<string>, result: JobResult) {
    report == None || report == ReportOf(result)
  }

  predicate PollConsistent(jobs: map<string, JobResult>, row: KCache) {
    row.evaluation.Some? ==>
      row.job in jobs && IsReport(row.report, jobs[row.job]) && row == Polled(row, jobs[row.job], row.report)
  }

  predicate TaskConsistent(c: Cache, p: Poll) {
    && p.k in c.rows && c.rows[p.k].job != ""
    && (p.Fetched? ==>
          c.rows[p.k].job in c.jobs && p.result == c.jobs[c.rows[p.k].job] && IsReport(p.report, p.result))
  }

  /** A row without a verdict is a success exactly if its job was submitted. */
  predicate SubmittedIfSuccess(row: KCache) {
    row.evaluation.None? ==> (row.success <==> row.job != "")
  }

  predicate RowConsistent(jobs: map<string, JobResult>, row: KCache) {
    PollConsistent(jobs, row) && SubmittedIfSuccess(row)
  }

  ghost predicate CacheInv(c: Cache) {
    && "" !in c.jobs && c.jobs.Keys !! c.unreadable
    && (forall k :: k in c.rows ==> RowConsistent(c.jobs, c.rows[k]))
    && (forall t :: t in c.polls ==> TaskConsistent(c, c.polls[t]))
  }

  /** Nothing but the report differs. */
  predicate SameVerdict(before: KCache, after: KCache) {
    after == before.(report := after.report)
  }

  /** However polls overlap, a row that no pass selects any more keeps its verdict, status and storage
      key; what a late poll can still replace is the report. */
  lemma CacheStep(c: Cache, e: CacheEvent)
    requires CacheInv(c) && CacheEnabled(c, e)
    ensures CacheInv(ApplyCache(c, e))
    ensures forall k :: k in c.rows ==> k in ApplyCache(c, e).rows && ApplyCache(c, e).rows[k].job == c.rows[k].job
    ensures forall k :: k in c.rows && !AwaitsPoll(c.rows[k]) ==> SameVerdict(c.rows[k], ApplyCache(c, e).rows[k])
  {
    var c' := ApplyCache(c, e);
    if e.WritePoll? {
      assert TaskConsistent(c, c.polls[e.t]) && RowConsistent(c.jobs, c.rows[c.polls[e.t].k]);
    }
    if e.SelectForPoll? {
      assert RowConsistent(c.jobs, c.rows[e.k]);
    }
    forall k | k in c'.rows ensures RowConsistent(c'.jobs, c'.rows[k]) {
      if k in c.rows { assert RowConsistent(c.jobs, c.rows[k]); }
    }
    forall t | t in c'.polls ensures TaskConsistent(c', c'.polls[t]) {
      if t in c.polls { assert TaskConsistent(c, c.polls[t]); }
    }
  }

  // ---------------------------------------------------------------- what can still change

  /** The cache after some events, as far as they are possible. */
  function CacheAfter(c: Cache, es: seq<CacheEvent>): Option<Cache>
    decreases es
  {
    if es == [] then Some(c)
    else if CacheEnabled(c, es[0]) then CacheAfter(ApplyCache(c, es[0]), es[1..])
    else None
  }

  predicate ChangesRow(c: Cache, k: Key, es: seq<CacheEvent>)
    requires k in c.rows
  {
    var after := CacheAfter(c, es);
    after.Some? && k in after.value.rows && after.value.rows[k] != c.rows[k]
  }

  predicate ChangesVerdict(c: Cache, k: Key, es: seq<CacheEvent>)
    requires k in c.rows
  {
    var after := CacheAfter(c, es);
    after.Some? && k in after.value.rows && !SameVerdict(c.rows[k], after.value.rows[k])
  }

  /** After some further events the row reads differently. */
  ghost predicate CanChange(c: Cache, k: Key)
    requires k in c.rows
  {
    exists es :: ChangesRow(c, k, es)
  }

  ghost predicate VerdictCanChange(c: Cache, k: Key)
    requires k in c.rows
  {
    exists es :: ChangesVerdict(c, k, es)
  }

  /** The task can still write another report than the row holds. */
  predicate Differs(c: Cache, p: Poll)
    requires p.k in c.rows
  {
    match p
    case Selected(k) => c.rows[k].job in c.jobs && ReportOf(c.jobs[c.rows[k].job]).Some?
    case Fetched(k, _, report) => report != c.rows[k].report
  }

  /** A poll of the row that was selected before its verdict was written is still under way, and the
      report it may write is not the one that is there. */
  ghost predicate ReportOpen(c: Cache, k: Key)
    requires k in c.rows
  {
    exists t :: t in c.polls && c.polls[t].k == k && Differs(c, c.polls[t])
  }

  /** The row is selected, and no exception comes of polling it. */
  predicate AwaitsVerdict(c: Cache, k: Key)
    requires k in c.rows
  {
    AwaitsPoll(c.rows[k]) && c.rows[k].job !in c.unreadable
  }

  lemma ClosedStep(c: Cache, k: Key, e: CacheEvent)
    requires CacheInv(c) && CacheEnabled(c, e) && k in c.rows && !AwaitsVerdict(c, k) && !ReportOpen(c, k)
    ensures var c' := ApplyCache(c, e);
            k in c'.rows && c'.rows[k] == c.rows[k] && !AwaitsVerdict(c', k) && !ReportOpen(c', k)
  {
    var c' := ApplyCache(c, e);
    assert RowConsistent(c.jobs, c.rows[k]);
    forall t | t in c.polls && c.polls[t].k == k
      ensures c.rows[k].job in c.jobs.Keys + c.unreadable && !Differs(c, c.polls[t]) && TaskConsistent(c, c.polls[t])
    {
    }
    assert c'.rows[k] == c.rows[k];
    forall t | t in c'.polls && c'.polls[t].k == k ensures !Differs(c', c'.polls[t]) {
      if t in c.polls && c'.polls[t] == c.polls[t] {
        assert !Differs(c, c.polls[t]);
      }
    }
  }

  lemma {:induction false} ClosedStays(c: Cache, k: Key, es: seq<CacheEvent>)
    requires CacheInv(c) && k in c.rows && !AwaitsVerdict(c, k) && !ReportOpen(c, k)
    ensures !ChangesRow(c, k, es)
    decreases es
  {
    if es != [] && CacheEnabled(c, es[0]) {
      CacheStep(c, es[0]);
      ClosedStep(c, k, es[0]);
      ClosedStays(ApplyCache(c, es[0]), k, es[1..]);
    }
  }

  lemma {:induction false} VerdictStays(c: Cache, k: Key, es: seq<CacheEvent>)
    requires CacheInv(c) && k in c.rows && !AwaitsVerdict(c, k)
    ensures !ChangesVerdict(c, k, es)
    decreases es
  {
    if es != [] && CacheEnabled(c, es[0]) {
      CacheStep(c, es[0]);
      VerdictStays(ApplyCache(c, es[0]), k, es[1..]);
    }
  }

  lemma AfterOne(c: Cache, e: CacheEvent, es: seq<CacheEvent>)
    requires CacheEnabled(c, e)
    ensures CacheAfter(c, [e] + es) == CacheAfter(ApplyCache(c, e), es)
  {
    assert ([e] + es)[1..] == es;
  }

  /** A selected row's poll ends with the job's verdict and, as the download goes, its report. */
  lemma PollWrites(c: Cache, t: nat, downloads: bool)
    requires CacheInv(c) && t in c.polls && c.polls[t].Selected? && c.rows[c.polls[t].k].job in c.jobs
    ensures var k := c.polls[t].k;
            var result := c.jobs[c.rows[k].job];
            var row := Polled(c.rows[k], result, if downloads then ReportOf(result) else None);
            CacheAfter(c, [ReadJob(t, downloads), WritePoll(t)])
                == Some(c.(rows := c.rows[k := row], polls := c.polls - {t}))
  {
    assert TaskConsistent(c, c.polls[t]);
    var c1 := ApplyCache(c, ReadJob(t, downloads));
    assert [ReadJob(t, downloads)] + [WritePoll(t)] == [ReadJob(t, downloads), WritePoll(t)];
    AfterOne(c, ReadJob(t, downloads), [WritePoll(t)]);
    assert [WritePoll(t)] + [] == [WritePoll(t)];
    AfterOne(c1, WritePoll(t), []);
    assert c1.polls - {t} == c.polls - {t};
  }

  lemma OpenCanChange(c: Cache, k: Key)
    requires CacheInv(c) && k in c.rows && !AwaitsPoll(c.rows[k]) && ReportOpen(c, k)
    ensures CanChange(c, k)
  {
    var t :| t in c.polls && c.polls[t].k == k && Differs(c, c.polls[t]);
    if c.polls[t].Selected? {
      var downloads := c.rows[k].report.None?;
      PollWrites(c, t, downloads);
      assert ChangesRow(c, k, [ReadJob(t, downloads), WritePoll(t)]);
    } else {
      assert [WritePoll(t)] + [] == [WritePoll(t)];
      AfterOne(c, WritePoll(t), []);
      assert ChangesRow(c, k, [WritePoll(t)]);
    }
  }

  /** Selecting a row whose job has finished, reading the job and writing the result fills in its verdict. */
  lemma PollFillsIn(c: Cache, k: Key) returns (es: seq<CacheEvent>)
    requires CacheInv(c) && k in c.rows && AwaitsPoll(c.rows[k]) && c.rows[k].job in c.jobs
    ensures ChangesVerdict(c, k, es)
  {
    var t := FreshNat(c.polls.Keys);
    var e := SelectForPoll(t, k);
    CacheStep(c, e);
    PollWrites(ApplyCache(c, e), t, true);
    es := [e] + [ReadJob(t, true), WritePoll(t)];
    AfterOne(c, e, [ReadJob(t, true), WritePoll(t)]);
  }

  lemma SelectedCanChange(c: Cache, k: Key)
    requires CacheInv(c) && k in c.rows && AwaitsVerdict(c, k)
    ensures VerdictCanChange(c, k)
  {
    assert RowConsistent(c.jobs, c.rows[k]);
    if c.rows[k].job in c.jobs {
      var es := PollFillsIn(c, k);
    } else {
      var e := JobFinishes(c.rows[k].job, JobResult(NotReproduced, None, None));
      CacheStep(c, e);
      var es := PollFillsIn(ApplyCache(c, e), k);
      AfterOne(c, e, es);
      assert ChangesVerdict(c, k, [e] + es);
    }
  }

  /** The polling pass selects exactly the rows whose verdict, status or storage key can still change, and
      besides only those whose job cannot be interpreted, which every later pass tries again in vain. */
  lemma SelectedIffVerdictCanChange(c: Cache, k: Key)
    requires CacheInv(c) && k in c.rows
    ensures VerdictCanChange(c, k) <==> AwaitsPoll(c.rows[k]) && c.rows[k].job !in c.unreadable
  {
    if AwaitsVerdict(c, k) {
      SelectedCanChange(c, k);
    } else {
      forall es ensures !ChangesVerdict(c, k, es) {
        VerdictStays(c, k, es);
      }
    }
  }

  /** Exactly when a row can still change at all: it waits for its verdict, or a poll of it that was selected before
      is still under way and may write another report. */
  lemma CanChangeIff(c: Cache, k: Key)
    requires CacheInv(c) && k in c.rows
    ensures CanChange(c, k) <==> AwaitsVerdict(c, k) || ReportOpen(c, k)
  {
    if AwaitsVerdict(c, k) {
      SelectedCanChange(c, k);
      var es :| ChangesVerdict(c, k, es);
      assert ChangesRow(c, k, es);
    } else if ReportOpen(c, k) {
      OpenCanChange(c, k);
    } else {
      forall es ensures !ChangesRow(c, k, es) {
        ClosedStays(c, k, es);
      }
    }
  }

  /** A report is lost for good: whatever was stored before, when the last poll of a row under way fails to
      download it, the row has no report, and no later pass brings it back. */
  lemma LastDownloadDecides(c: Cache, t: nat)
    requires CacheInv(c) && t in c.polls && c.polls[t].Selected? && c.rows[c.polls[t].k].job in c.jobs
    requires forall u :: u in c.polls && c.polls[u].k == c.polls[t].k ==> u == t
    requires c.jobs[c.rows[c.polls[t].k].job].storageKey.Some?
    ensures var (k, after) := (c.polls[t].k, CacheAfter(c, [ReadJob(t, false), WritePoll(t)]));
            && after.Some? && k in after.value.rows && after.value.rows[k].report == None
            && !CanChange(after.value, k)
  {
    var k := c.polls[t].k;
    PollWrites(c, t, false);
    CacheStep(c, ReadJob(t, false));
    var c1 := ApplyCache(c, ReadJob(t, false));
    CacheStep(c1, WritePoll(t));
    var c2 := ApplyCache(c1, WritePoll(t));
    assert c1.polls - {t} == c.polls - {t};
    assert !ReportOpen(c2, k);
    CanChangeIff(c2, k);
  }

  const ROW := Key("b", ParentCommit)

  /** A row of a reproduced bug, polled or not, with polling tasks that have selected it. */
  function OneRow(row: KCache, text: string, polls: map<nat, Poll>): Cache {
    Cache(map[ROW := row], map["j" := JobResult(Reproduced, Some("s"), Some(text))], {}, {}, polls)
  }

  function Unpolled(text: string): Cache {
    OneRow(KCache("j", true, None, None, None), text, map[0 := Selected(ROW), 1 := Selected(ROW)])
  }

  function WithReport(text: string): Cache {
    OneRow(KCache("j", true, Some("s"), Some(Reproduced), Some(text)), text, map[1 := Selected(ROW)])
  }

  lemma FirstStores(text: string)
    ensures CacheInv(Unpolled(text))
    ensures CacheAfter(Unpolled(text), [ReadJob(0, true), WritePoll(0)]) == Some(WithReport(text))
  {
    var c := Unpolled(text);
    assert forall t :: t in c.polls ==> TaskConsistent(c, c.polls[t]);
    PollWrites(c, 0, true);
    assert c.polls - {0} == map[1 := Selected(ROW)];
    assert c.rows[ROW := WithReport(text).rows[ROW]] == WithReport(text).rows;
  }

  /** Two passes overlap on one row: the first stores the report, and when the second cannot download it,
      it is gone for good. */
  lemma OverlapLosesReport(text: string)
    ensures CacheInv(Unpolled(text))
    ensures CacheAfter(Unpolled(text), [ReadJob(0, true), WritePoll(0)]) == Some(WithReport(text))
    ensures var lost := CacheAfter(WithReport(text), [ReadJob(1, false), WritePoll(1)]);
            && lost.Some? && ROW in lost.value.rows && lost.value.rows[ROW].report == None
            && !CanChange(lost.value, ROW)
  {
    FirstStores(text);
    var c := WithReport(text);
    assert forall t :: t in c.polls ==> TaskConsistent(c, c.polls[t]);
    LastDownloadDecides(c, 1);
  }

  // ---------------------------------------------------------------- base images

  /** - `tasks`: for each build task that won its claim, the row it is building
      - `wins`: how often a claim of the row has succeeded */
  datatype Builds = Builds(images: map<Key, Image>, tasks: map<nat, Key>, wins: map<Key, nat>) {
    function WinsOf(k: Key): nat {
      if k in wins then wins[k] else 0
    }
  }

  datatype BuildEvent =
    | InsertImage(k: Key)
    | Claim(task: nat, k: Key)
    | Mark(task: nat, result: BuildResult, now: int)
    | Die(task: nat)

  predicate BuildEnabled(b: Builds, e: BuildEvent) {
    match e
    case InsertImage(_) => true
    case Claim(task, _) => task !in b.tasks
    case Mark(task, _, _) => task in b.tasks
    case Die(task) => task in b.tasks
  }

  /** `UPDATE ... SET status = 'building' WHERE id = ? AND status = 'pending'`, and whether it hit a row. */
  function Claimed(images: map<Key, Image>, k: Key): (map<Key, Image>, bool) {
    if k in images && images[k].status == Pending
    then (images[k := images[k].(status := Building)], true)
    else (images, false)
  }

  function ApplyBuild(b: Builds, e: BuildEvent): Builds
    requires BuildEnabled(b, e)
  {
    match e
    case InsertImage(k) =>
      if k in b.images then b  // the unique constraint raises
      else b.(images := b.images[k := Image(Pending, None, None)])
    case Claim(task, k) =>
      var (images, won) := Claimed(b.images, k);
      if won then Builds(images, b.tasks[task := k], b.wins[k := b.WinsOf(k) + 1]) else b
    case Mark(task, result, now) =>
      var k := b.tasks[task];
      b.(images := if k in b.images then b.images[k := Marked(b.images[k], result, now)] else b.images,
         tasks := b.tasks - {task})
    case Die(task) => b.(tasks := b.tasks - {task})
  }

  predicate Stamped(row: Image) {
    && (row.builtTime.Some? <==> row.status in {Built, Pushed})
    && (row.pushedTime.Some? <==> row.status == Pushed)
  }

  /** A task builds only a row in state `building`, no two tasks build the same row, the time columns
      tell the state, and a row has been claimed once exactly if it is no longer pending. */
  ghost predicate BuildInv(b: Builds) {
    && (forall t :: t in b.tasks ==> b.tasks[t] in b.images && b.images[b.tasks[t]].status == Building)
    && (forall t, u :: t in b.tasks && u in b.tasks && b.tasks[t] == b.tasks[u] ==> t == u)
    && (forall k :: k in b.images ==> Stamped(b.images[k]))
    && (forall k :: b.WinsOf(k) == if k in b.images && b.images[k].status != Pending then 1 else 0)
  }

  predicate Terminal(status: ImageStatus) {
    status in {Built, Pushed, Error}
  }

  /** The only moves of a status: `pending` to `building` to one of the three final states. */
  predicate Forward(before: ImageStatus, after: ImageStatus) {
    before == after || (before == Pending && after == Building) || (before == Building && Terminal(after))
  }

  lemma ClaimKeepsBuildInv(b: Builds, task: nat, k: Key)
    requires BuildInv(b) && BuildEnabled(b, Claim(task, k))
    ensures BuildInv(ApplyBuild(b, Claim(task, k)))
  {
    var b' := ApplyBuild(b, Claim(task, k));
    if Claimed(b.images, k).1 {
      assert Stamped(b.images[k]) && b.WinsOf(k) == 0;
      assert forall t :: t in b.tasks ==> b.tasks[t] != k;
      forall j ensures b'.WinsOf(j) == if j in b'.images && b'.images[j].status != Pending then 1 else 0 {
        assert b.WinsOf(j) == if j in b.images && b.images[j].status != Pending then 1 else 0;
      }
    }
  }

  lemma MarkKeepsBuildInv(b: Builds, task: nat, result: BuildResult, now: int)
    requires BuildInv(b) && task in b.tasks
    ensures BuildInv(ApplyBuild(b, Mark(task, result, now)))
  {
    var k := b.tasks[task];
    var b' := ApplyBuild(b, Mark(task, result, now));
    assert Stamped(b.images[k]) && Stamped(Marked(b.images[k], result, now));
    forall j ensures b'.WinsOf(j) == if j in b'.images && b'.images[j].status != Pending then 1 else 0 {
      assert b.WinsOf(j) == if j in b.images && b.images[j].status != Pending then 1 else 0;
    }
  }

  lemma BuildStep(b: Builds, e: BuildEvent)
    requires BuildInv(b) && BuildEnabled(b, e)
    ensures BuildInv(ApplyBuild(b, e))
  {
    match e
    case Claim(task, k) => ClaimKeepsBuildInv(b, task, k);
    case Mark(task, result, now) => MarkKeepsBuildInv(b, task, result, now);
    case Die(_) =>
    case InsertImage(k) =>
      var b' := ApplyBuild(b, e);
      forall j ensures b'.WinsOf(j) == if j in b'.images && b'.images[j].status != Pending then 1 else 0 {
        assert b.WinsOf(j) == if j in b.images && b.images[j].status != Pending then 1 else 0;
      }
  }

  lemma BuildMovesForward(b: Builds, e: BuildEvent, k: Key)
    requires BuildInv(b) && BuildEnabled(b, e) && k in b.images
    ensures k in ApplyBuild(b, e).images && Forward(b.images[k].status, ApplyBuild(b, e).images[k].status)
    ensures Terminal(b.images[k].status) ==> ApplyBuild(b, e).images[k] == b.images[k]
  {
  }

  /** The build passes select the rows that are not final. */
  predicate AwaitsBuild(row: Image) { row.status in {Pending, Building} }

  function BuildsAfter(b: Builds, es: seq<BuildEvent>): Option<Builds>
    decreases es
  {
    if es == [] then Some(b)
    else if BuildEnabled(b, es[0]) then BuildsAfter(ApplyBuild(b, es[0]), es[1..])
    else None
  }

  /** After some further events the row is final. */
  ghost predicate CanFinish(b: Builds, k: Key) {
    exists es :: Finishes(b, k, es)
  }

  predicate Finishes(b: Builds, k: Key, es: seq<BuildEvent>) {
    var after := BuildsAfter(b, es);
    after.Some? && k in after.value.images && Terminal(after.value.images[k].status)
  }

  /** The row has been claimed, but no task is building it. */
  predicate Stranded(b: Builds, k: Key)
    requires k in b.images
  {
    b.images[k].status == Building && forall t :: t in b.tasks ==> b.tasks[t] != k
  }

  lemma {:induction false} StrandedStays(b: Builds, k: Key, es: seq<BuildEvent>)
    requires BuildInv(b) && k in b.images && Stranded(b, k)
    ensures !Finishes(b, k, es)
    decreases es
  {
    if es != [] && BuildEnabled(b, es[0]) {
      BuildStep(b, es[0]);
      StrandedStays(ApplyBuild(b, es[0]), k, es[1..]);
    }
  }

  lemma MarkFinishes(b: Builds, t: nat)
    requires BuildInv(b) && t in b.tasks
    ensures Finishes(b, b.tasks[t], [Mark(t, BuildRaised, 0)])
  {
    var e := Mark(t, BuildRaised, 0);
    assert BuildsAfter(ApplyBuild(b, e), []) == Some(ApplyBuild(b, e)) && [e][1..] == [];
  }

  /** A crashed builder leaves its row selected by every later pass, but claimed for good: a row can
      still be finished if and only if it is not in state `building` without a task. */
  lemma FinishesIff(b: Builds, k: Key)
    requires BuildInv(b) && k in b.images
    ensures CanFinish(b, k) <==> !Stranded(b, k)
  {
    if Stranded(b, k) {
      forall es ensures !Finishes(b, k, es) {
        StrandedStays(b, k, es);
      }
    } else if Terminal(b.images[k].status) {
      assert Finishes(b, k, []);
    } else if t :| t in b.tasks && b.tasks[t] == k {
      MarkFinishes(b, t);
    } else {
      var t := FreshNat(b.tasks.Keys);
      var e := Claim(t, k);
      var b1 := ApplyBuild(b, e);
      BuildStep(b, e);
      MarkFinishes(b1, t);
      assert ([e] + [Mark(t, BuildRaised, 0)])[1..] == [Mark(t, BuildRaised, 0)];
      assert Finishes(b, k, [e] + [Mark(t, BuildRaised, 0)]);
    }
  }

  lemma CrashStrands(b: Builds, t: nat)
    requires BuildInv(b) && t in b.tasks
    ensures var (k, b') := (b.tasks[t], ApplyBuild(b, Die(t)));
            k in b'.images && AwaitsBuild(b'.images[k]) && !CanFinish(b', k)
  {
    BuildStep(b, Die(t));
    FinishesIff(ApplyBuild(b, Die(t)), b.tasks[t]);
  }

  // ---------------------------------------------------------------- the whole pipeline

  /** `imaging` and `patching` are the rows some task has selected, perhaps long ago. */
  datatype State = State(bugs: map<string, BugStatus>, cache: Cache, imaging: set<Key>, builds: Builds,
                         patching: set<string>, patches: seq<string>)

  datatype Event =
    | UpsertBug(bug: string, status: BugStatus)
    | OnCache(c: CacheEvent)
    | SelectForImage(status: BugStatus)
    | OnBuilds(b: BuildEvent)
    | SelectForPatch
    | InsertPatch(bug: string)

  predicate Enabled(s: State, e: Event) {
    match e
    case OnCache(c) => CacheEnabled(s.cache, c) && (c.SelectForKCache? ==> c.bugs == s.bugs)
    case OnBuilds(b) => BuildEnabled(s.builds, b) && (b.InsertImage? ==> b.k in s.imaging)
    case InsertPatch(bug) => bug in s.patching
    case _ => true
  }

  function BugsNeedingImage(s: State, status: BugStatus): set<string> {
    set b | b in s.bugs && NeedsImage(s.bugs, s.cache.rows, s.builds.images, status, b)
  }

  function BugsNeedingPatch(s: State): set<string> {
    set b | b in s.bugs && NeedsDeveloperPatch(s.bugs, s.builds.images, s.patches, b)
  }

  function Apply(s: State, e: Event): State
    requires Enabled(s, e)
  {
    match e
    case UpsertBug(bug, status) => s.(bugs := s.bugs[bug := status])
    case OnCache(c) => s.(cache := ApplyCache(s.cache, c))
    case SelectForImage(status) =>
      s.(imaging := s.imaging + set b | b in BugsNeedingImage(s, status) :: Key(b, BaseCommitFor(status)))
    case OnBuilds(b) => s.(builds := ApplyBuild(s.builds, b))
    case SelectForPatch => s.(patching := s.patching + BugsNeedingPatch(s))
    case InsertPatch(bug) => s.(patches := s.patches + [bug])
  }

  predicate Init(s: State) {
    && s.cache == Cache(map[], map[], {}, {}, map[])
    && s.imaging == {} && s.builds == Builds(map[], map[], map[])
    && s.patching == {} && s.patches == []
  }

  predicate ImageReady(b: Builds, bug: string) {
    Key(bug, ParentCommit) in b.images && b.images[Key(bug, ParentCommit)].status in {Built, Pushed}
  }

  /** Every image row stands for a cached build that reproduces the bug and is stored, and every
      developer patch for a finished image of the parent commit. */
  ghost predicate Provenance(s: State) {
    && (forall k :: k in s.builds.images ==> Usable(s.cache, k))
    && (forall b :: b in s.patches ==> ImageReady(s.builds, b))
  }

  ghost predicate Inv(s: State) {
    && CacheInv(s.cache) && BuildInv(s.builds)
    && (forall k :: k in s.imaging || k in s.builds.images ==> Usable(s.cache, k))
    && (forall b :: b in s.patching || b in s.patches ==> ImageReady(s.builds, b))
  }

  lemma StepKeepsInv(s: State, e: Event)
    requires Inv(s) && Enabled(s, e)
    ensures Inv(Apply(s, e))
  {
    match e
    case OnCache(c) =>
      CacheStep(s.cache, c);
      forall k | Usable(s.cache, k) ensures Usable(ApplyCache(s.cache, c), k) {
      }
    case OnBuilds(b) =>
      BuildStep(s.builds, b);
      forall bug | ImageReady(s.builds, bug) ensures ImageReady(ApplyBuild(s.builds, b), bug) {
        BuildMovesForward(s.builds, b, Key(bug, ParentCommit));
      }
      assert forall k :: k in ApplyBuild(s.builds, b).images ==> k in s.builds.images || k in s.imaging;
    case SelectForImage(status) =>
      forall k | k in Apply(s, e).imaging ensures Usable(s.cache, k) {
        if k !in s.imaging { assert RowConsistent(s.cache.jobs, s.cache.rows[k]); }
      }
    case _ =>
  }

  /** `states` is what the pipeline goes through when `events` happen in order. */
  ghost predicate IsRun(states: seq<State>, events: seq<Event>) {
    && |states| == |events| + 1
    && Init(states[0])
    && forall i :: 0 <= i < |events| ==> IsStep(states, events, i)
  }

  ghost predicate IsStep(states: seq<State>, events: seq<Event>, i: nat)
    requires i < |events| < |states|
  {
    Enabled(states[i], events[i]) && states[i + 1] == Apply(states[i], events[i])
  }

  lemma {:induction false} RunKeepsInv(states: seq<State>, events: seq<Event>, i: nat)
    requires IsRun(states, events) && i < |states|
    ensures Inv(states[i])
  {
    if i > 0 {
      RunKeepsInv(states, events, i - 1);
      assert IsStep(states, events, i - 1);
      StepKeepsInv(states[i - 1], events[i - 1]);
    }
  }

  /** The provenance chain holds in every reachable state. */
  lemma ProvenanceHolds(states: seq<State>, events: seq<Event>)
    requires IsRun(states, events)
    ensures forall i :: 0 <= i < |states| ==> Provenance(states[i])
  {
    forall i | 0 <= i < |states| ensures Provenance(states[i]) {
      RunKeepsInv(states, events, i);
    }
  }

  /** Step `i` is a claim of row `k` that succeeds. */
  predicate WinsClaim(states: seq<State>, events: seq<Event>, i: nat, k: Key)
    requires i < |events| < |states|
  {
    events[i].OnBuilds? && events[i].b.Claim? && events[i].b.k == k && Claimed(states[i].builds.images, k).1
  }

  ghost function ClaimsWon(states: seq<State>, events: seq<Event>, k: Key, j: nat): nat
    requires j <= |events| < |states|
  {
    if j == 0 then 0 else ClaimsWon(states, events, k, j - 1) + if WinsClaim(states, events, j - 1, k) then 1 else 0
  }

  lemma {:induction false} ClaimsAreCounted(states: seq<State>, events: seq<Event>, k: Key, j: nat)
    requires IsRun(states, events) && j <= |events|
    ensures ClaimsWon(states, events, k, j) == states[j].builds.WinsOf(k)
  {
    if j > 0 {
      ClaimsAreCounted(states, events, k, j - 1);
      assert IsStep(states, events, j - 1);
    }
  }

  /** One builder per image row: over any interleaving of any number of passes, with tasks dying at
      any await, at most one claim of a row ever succeeds, and no two live tasks build one row. */
  lemma OneBuilderPerImage(states: seq<State>, events: seq<Event>, k: Key, j: nat)
    requires IsRun(states, events) && j <= |events|
    ensures ClaimsWon(states, events, k, j) <= 1
    ensures var tasks := states[j].builds.tasks;
            forall t, u :: t in tasks && u in tasks && tasks[t] == tasks[u] ==> t == u
  {
    ClaimsAreCounted(states, events, k, j);
    RunKeepsInv(states, events, j);
  }

  /** `after` is `before` or lies behind it on the way from pending over building to a final state. */
  predicate Later(before: ImageStatus, after: ImageStatus) {
    before == after || before == Pending || (before == Building && Terminal(after))
  }

  /** Along a run a row's status only moves forward, one place at each step; a final row never changes
      again, and the time columns always tell the status. */
  lemma {:induction false} StatusMovesForward(states: seq<State>, events: seq<Event>, k: Key, i: nat, j: nat)
    requires IsRun(states, events) && i <= j < |states| && k in states[i].builds.images
    ensures k in states[j].builds.images && Stamped(states[j].builds.images[k])
    ensures Later(states[i].builds.images[k].status, states[j].builds.images[k].status)
    ensures j == i + 1 ==> Forward(states[i].builds.images[k].status, states[j].builds.images[k].status)
    ensures Terminal(states[i].builds.images[k].status) ==> states[j].builds.images[k] == states[i].builds.images[k]
    decreases j - i
  {
    RunKeepsInv(states, events, j);
    if i < j {
      StatusMovesForward(states, events, k, i, j - 1);
      RunKeepsInv(states, events, j - 1);
      assert IsStep(states, events, j - 1);
      if events[j - 1].OnBuilds? {
        BuildMovesForward(states[j - 1].builds, events[j - 1].b, k);
      }
    }
  }

  /** A verdict is written once: a cached build that is not awaiting a poll any more keeps its verdict,
      status, storage key and job. */
  lemma {:induction false} VerdictIsFinal(states: seq<State>, events: seq<Event>, k: Key, i: nat, j: nat)
    requires IsRun(states, events) && i <= j < |states|
    requires k in states[i].cache.rows && !AwaitsPoll(states[i].cache.rows[k])
    ensures k in states[j].cache.rows && SameVerdict(states[i].cache.rows[k], states[j].cache.rows[k])
    decreases j - i
  {
    if i < j {
      VerdictIsFinal(states, events, k, i, j - 1);
      RunKeepsInv(states, events, j - 1);
      assert IsStep(states, events, j - 1);
      if events[j - 1].OnCache? {
        CacheStep(states[j - 1].cache, events[j - 1].c);
      }
    }
  }

  /** What a pass selects stays valid for as long as it may take to insert it: a selected bug's build is
      usable, and a selected bug's image is finished, in every later state. */
  lemma SelectionStaysValid(states: seq<State>, events: seq<Event>, i: nat, j: nat, status: BugStatus, bug: string)
    requires IsRun(states, events) && i <= j < |states|
    ensures bug in BugsNeedingImage(states[i], status) ==>
              Usable(states[j].cache, Key(bug, if status == FixedBug then ParentCommit else CrashCommit))
    ensures bug in BugsNeedingPatch(states[i]) ==> ImageReady(states[j].builds, bug)
  {
    RunKeepsInv(states, events, i);
    var k := Key(bug, BaseCommitFor(status));
    if bug in BugsNeedingImage(states[i], status) {
      assert RowConsistent(states[i].cache.jobs, states[i].cache.rows[k]);
      VerdictIsFinal(states, events, k, i, j);
    }
    if bug in BugsNeedingPatch(states[i]) {
      StatusMovesForward(states, events, Key(bug, ParentCommit), i, j);
    }
  }

  // ---------------------------------------------------------------- from a fixed bug to its patch

  /** The pipeline after some events, as far as they are possible. */
  function PipelineAfter(s: State, es: seq<Event>): Option<State>
    decreases es
  {
    if es == [] then Some(s)
    else if Enabled(s, es[0]) then PipelineAfter(Apply(s, es[0]), es[1..])
    else None
  }

  /** The events lead from `s` to `s'`, and none of them changes the table of bugs. */
  predicate Leads(s: State, es: seq<Event>, s': State) {
    PipelineAfter(s, es) == Some(s') && forall i :: 0 <= i < |es| ==> !es[i].UpsertBug?
  }

  lemma {:induction false} LeadsOn(s: State, a: seq<Event>, s1: State, b: seq<Event>, s2: State)
    requires Leads(s, a, s1) && Leads(s1, b, s2)
    ensures Leads(s, a + b, s2)
    decreases a
  {
    if a == [] {
      assert a + b == b;
    } else {
      assert (a + b)[1..] == a[1..] + b;
      LeadsOn(Apply(s, a[0]), a[1..], s1, b, s2);
    }
  }

  lemma LeadsByOne(s: State, e: Event)
    requires Enabled(s, e) && !e.UpsertBug?
    ensures Leads(s, [e], Apply(s, e))
  {
    assert [e][1..] == [];
    assert PipelineAfter(Apply(s, e), []) == Some(Apply(s, e));
  }

  lemma LeadsByTwo(s: State, d: Event, e: Event)
    requires Enabled(s, d) && !d.UpsertBug? && Enabled(Apply(s, d), e) && !e.UpsertBug?
    ensures Leads(s, [d, e], Apply(Apply(s, d), e))
  {
    LeadsByOne(s, d);
    LeadsByOne(Apply(s, d), e);
    LeadsOn(s, [d], Apply(s, d), [e], Apply(Apply(s, d), e));
    assert [d] + [e] == [d, e];
  }

  lemma {:induction false} LeadsKeepsInv(s: State, es: seq<Event>, s': State)
    requires Inv(s) && Leads(s, es, s')
    ensures Inv(s') && s'.bugs == s.bugs
    decreases es
  {
    if es != [] {
      StepKeepsInv(s, es[0]);
      LeadsKeepsInv(Apply(s, es[0]), es[1..], s');
    }
  }

  function ParentOf(b: string): Key { Key(b, ParentCommit) }

  /** The bug is fixed and has no patch yet. */
  predicate Lacks(s: State, b: string) {
    b in s.bugs && s.bugs[b] == FixedBug && b !in s.patches
  }

  /** A submitting pass selects the bug and submits a job that has not been heard of before. */
  lemma BuildSubmitted(s: State, b: string) returns (es: seq<Event>, s': State)
    requires Inv(s) && Lacks(s, b) && ParentOf(b) !in s.cache.rows
    ensures Leads(s, es, s') && Lacks(s', b) && ParentOf(b) in s'.cache.rows
    ensures AwaitsVerdict(s'.cache, ParentOf(b)) && s'.cache.rows[ParentOf(b)].job !in s'.cache.jobs
  {
    var job := FreshString(s.cache.jobs.Keys + s.cache.unreadable);
    var d, e := OnCache(SelectForKCache(s.bugs, FixedBug)), OnCache(InsertKCache(ParentOf(b), job));
    LeadsByTwo(s, d, e);
    es, s' := [d, e], Apply(Apply(s, d), e);
  }

  /** The job reproduces the bug and has stored its build. */
  predicate Stores(result: JobResult) {
    result.evaluation == Reproduced && result.storageKey.Some?
  }

  /** The verdict of the row is still to come, and nothing is known that rules out a usable build. */
  predicate MayBecomeUsable(c: Cache, k: Key)
    requires k in c.rows
  {
    AwaitsVerdict(c, k) && (c.rows[k].job in c.jobs ==> Stores(c.jobs[c.rows[k].job]))
  }

  lemma PollMakesUsable(s: State, b: string) returns (es: seq<Event>, s': State)
    requires Inv(s) && Lacks(s, b) && ParentOf(b) in s.cache.rows && AwaitsPoll(s.cache.rows[ParentOf(b)])
    requires var job := s.cache.rows[ParentOf(b)].job; job in s.cache.jobs && Stores(s.cache.jobs[job])
    ensures Leads(s, es, s') && Lacks(s', b) && Usable(s'.cache, ParentOf(b))
    ensures s'.builds == s.builds
  {
    assert RowConsistent(s.cache.jobs, s.cache.rows[ParentOf(b)]);
    var t := FreshNat(s.cache.polls.Keys);
    var d, e, f := OnCache(SelectForPoll(t, ParentOf(b))), OnCache(ReadJob(t, true)), OnCache(WritePoll(t));
    LeadsByTwo(s, d, e);
    LeadsByOne(Apply(Apply(s, d), e), f);
    s' := Apply(Apply(Apply(s, d), e), f);
    LeadsOn(s, [d, e], Apply(Apply(s, d), e), [f], s');
    es := [d, e] + [f];
  }

  lemma BuildBecomesUsable(s: State, b: string) returns (es: seq<Event>, s': State)
    requires Inv(s) && Lacks(s, b) && ParentOf(b) in s.cache.rows && MayBecomeUsable(s.cache, ParentOf(b))
    ensures Leads(s, es, s') && Lacks(s', b) && Usable(s'.cache, ParentOf(b))
    ensures s'.builds == s.builds
  {
    var job := s.cache.rows[ParentOf(b)].job;
    assert RowConsistent(s.cache.jobs, s.cache.rows[ParentOf(b)]);
    if job in s.cache.jobs {
      es, s' := PollMakesUsable(s, b);
    } else {
      var d := OnCache(JobFinishes(job, JobResult(Reproduced, Some("key"), None)));
      LeadsByOne(s, d);
      StepKeepsInv(s, d);
      var rest;
      rest, s' := PollMakesUsable(Apply(s, d), b);
      LeadsOn(s, [d], Apply(s, d), rest, s');
      es := [d] + rest;
    }
  }

  /** The bug's image is still to be built, being built, or finished. */
  predicate ImageOpen(s: State, b: string) {
    && ParentOf(b) in s.builds.images
    && s.builds.images[ParentOf(b)].status != Error && !Stranded(s.builds, ParentOf(b))
  }

  lemma ImageSubmitted(s: State, b: string) returns (es: seq<Event>, s': State)
    requires Inv(s) && Lacks(s, b) && Usable(s.cache, ParentOf(b)) && ParentOf(b) !in s.builds.images
    ensures Leads(s, es, s') && Lacks(s', b) && ImageOpen(s', b)
  {
    var d, e := SelectForImage(FixedBug), OnBuilds(InsertImage(ParentOf(b)));
    assert b in BugsNeedingImage(s, FixedBug);
    LeadsByTwo(s, d, e);
    es, s' := [d, e], Apply(Apply(s, d), e);
  }

  lemma ImageFinished(s: State, b: string) returns (es: seq<Event>, s': State)
    requires Inv(s) && Lacks(s, b) && ImageOpen(s, b)
    ensures Leads(s, es, s') && Lacks(s', b) && ImageReady(s'.builds, b)
  {
    var k := ParentOf(b);
    if s.builds.images[k].status == Pending {
      var t := FreshNat(s.builds.tasks.Keys);
      var d, e := OnBuilds(Claim(t, k)), OnBuilds(Mark(t, BuildSucceeded(false), 0));
      LeadsByTwo(s, d, e);
      es, s' := [d, e], Apply(Apply(s, d), e);
    } else if s.builds.images[k].status == Building {
      var t :| t in s.builds.tasks && s.builds.tasks[t] == k;
      var d := OnBuilds(Mark(t, BuildSucceeded(false), 0));
      LeadsByOne(s, d);
      es, s' := [d], Apply(s, d);
    } else {
      es, s' := [], s;
    }
  }

  lemma PatchInserted(s: State, b: string) returns (es: seq<Event>, s': State)
    requires Lacks(s, b) && (ImageReady(s.builds, b) || b in s.patching)
    ensures Leads(s, es, s') && b in s'.patches
  {
    if b in s.patching {
      LeadsByOne(s, InsertPatch(b));
      es, s' := [InsertPatch(b)], Apply(s, InsertPatch(b));
    } else {
      assert b in BugsNeedingPatch(s);
      LeadsByTwo(s, SelectForPatch, InsertPatch(b));
      es, s' := [SelectForPatch, InsertPatch(b)], Apply(Apply(s, SelectForPatch), InsertPatch(b));
    }
    assert s'.patches[|s'.patches| - 1] == b;
  }

  /** A patch of the bug is not ruled out: it is about to be inserted, or the image of the parent commit is on
      its way, or there is no image yet and the build of the parent commit is usable, on its way or missing. */
  predicate Hopeful(s: State, b: string) {
    || b in s.patching
    || (if ParentOf(b) in s.builds.images then ImageOpen(s, b)
        else ParentOf(b) in s.cache.rows ==>
               Usable(s.cache, ParentOf(b)) || MayBecomeUsable(s.cache, ParentOf(b)))
  }

  lemma HopefulGetsPatch(s: State, b: string) returns (es: seq<Event>, s': State)
    requires Inv(s) && Lacks(s, b) && Hopeful(s, b)
    ensures Leads(s, es, s') && b in s'.patches
    decreases if b in s.patching then 0 else if ParentOf(b) in s.builds.images then 1
              else if Usable(s.cache, ParentOf(b)) then 2 else if ParentOf(b) in s.cache.rows then 3 else 4
  {
    if b in s.patching {
      es, s' := PatchInserted(s, b);
    } else {
      var first, s1, rest;
      if ParentOf(b) in s.builds.images {
        first, s1 := ImageFinished(s, b);
        rest, s' := PatchInserted(s1, b);
      } else {
        if Usable(s.cache, ParentOf(b)) {
          first, s1 := ImageSubmitted(s, b);
        } else if ParentOf(b) in s.cache.rows {
          first, s1 := BuildBecomesUsable(s, b);
        } else {
          first, s1 := BuildSubmitted(s, b);
        }
        LeadsKeepsInv(s, first, s1);
        rest, s' := HopefulGetsPatch(s1, b);
      }
      LeadsOn(s, first, s1, rest, s');
      es := first + rest;
    }
  }

  lemma HopelessCacheStep(s: State, c: CacheEvent, b: string)
    requires Inv(s) && Enabled(s, OnCache(c)) && !Hopeful(s, b)
    ensures !Hopeful(Apply(s, OnCache(c)), b)
  {
    var k := ParentOf(b);
    CacheStep(s.cache, c);
    if k !in s.builds.images {
      assert RowConsistent(s.cache.jobs, s.cache.rows[k]);
      if c.WritePoll? { assert TaskConsistent(s.cache, s.cache.polls[c.t]); }
    }
  }

  lemma HopelessStep(s: State, e: Event, b: string)
    requires Inv(s) && Enabled(s, e) && !Hopeful(s, b) && b !in s.patches
    ensures !Hopeful(Apply(s, e), b) && b !in Apply(s, e).patches
  {
    match e
    case OnCache(c) => HopelessCacheStep(s, c, b);
    case OnBuilds(d) => BuildStep(s.builds, d);
    case _ =>
  }

  lemma {:induction false} HopelessStays(s: State, es: seq<Event>, b: string)
    requires Inv(s) && !Hopeful(s, b) && b !in s.patches
    ensures PipelineAfter(s, es).Some? ==> b !in PipelineAfter(s, es).value.patches
    decreases es
  {
    if es != [] && Enabled(s, es[0]) {
      HopelessStep(s, es[0], b);
      StepKeepsInv(s, es[0]);
      HopelessStays(Apply(s, es[0]), es[1..], b);
    }
  }

  predicate GetsPatch(s: State, es: seq<Event>, b: string) {
    PipelineAfter(s, es).Some? && b in PipelineAfter(s, es).value.patches
  }

  predicate GetsPatchFixed(s: State, es: seq<Event>, b: string) {
    GetsPatch(s, es, b) && forall i :: 0 <= i < |es| ==> !es[i].UpsertBug?
  }

  /** From any reachable state, a fixed bug without a patch can still get one, even with its status left alone,
      if and only if none is ruled out for good: no build of its parent commit that failed or cannot be
      interpreted, and no image of it that failed or whose builder crashed. */
  lemma PatchIff(states: seq<State>, events: seq<Event>, b: string)
    requires IsRun(states, events) && Lacks(states[|events|], b)
    ensures (exists es :: GetsPatchFixed(states[|events|], es, b)) <==> Hopeful(states[|events|], b)
    ensures (exists es :: GetsPatch(states[|events|], es, b)) <==> Hopeful(states[|events|], b)
  {
    var s := states[|events|];
    RunKeepsInv(states, events, |events|);
    if Hopeful(s, b) {
      var es, s' := HopefulGetsPatch(s, b);
      assert GetsPatchFixed(s, es, b);
    } else {
      forall es ensures !GetsPatch(s, es, b) {
        HopelessStays(s, es, b);
      }
    }
  }
}
