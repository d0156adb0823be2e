/** Evaluating agent patches in two phases: an issuing pass creates one job per patch without a row and
    inserts a row without verdict; polling passes fill in the verdict once the job has ended. */
module CrashEvaluation {
  import opened Prelude
  import opened KArenaModels
  import opened KGymVerdict

  datatype AgentPatch = AgentPatch(success: bool, config: nat)

  /** A row without a job was imported with its verdict. */
  datatype Row = Row(patch: nat, job: Option<nat>, verdict: Option<Evaluation>)

  /** A pass of an issuer: the patches still to submit, and those whose job exists but whose row does not. */
  datatype Issuer = Idle | Issuing(todo: set<nat>, sent: map<nat, nat>)

  /** - `jobs`: how many jobs have been created; they are numbered from 0
      - `ended`: the jobs that have ended, with their evaluation unless interpreting them raises
      - `polls`: the rows that pollers have read without a verdict and not updated yet, once for each poller */
  datatype Service = Service(jobs: nat, ended: map<nat, Option<Evaluation>>)
  datatype State = State(patches: map<nat, AgentPatch>, rows: seq<Row>, issuers: map<nat, Issuer>,
                         polls: multiset<nat>, service: Service)

  datatype Event =
    | AddPatch(p: nat, patch: AgentPatch)
    | Select(i: nat, config: Option<nat>)   // a pass starts, for all configurations or for one
    | Submit(i: nat, p: nat)
    | Insert(i: nat, p: nat)
    | Skip(i: nat, p: nat)            // submitting or inserting raises
    | Stop(i: nat)                    // the pass is over or the issuer dies
    | End(job: nat, evaluation: Option<Evaluation>)
    | Read(e: nat)
    | Update(e: nat)

  function PassOf(s: State, i: nat): Issuer {
    if i in s.issuers then s.issuers[i] else Idle
  }

  predicate HasRow(rows: seq<Row>, p: nat) {
    exists e :: 0 <= e < |rows| && rows[e].patch == p
  }

  /** The patch was produced, and for the configuration asked for. */
  predicate Wanted(patch: AgentPatch, config: Option<nat>) {
    patch.success && (config.Some? ==> patch.config == config.value)
  }

  function Unevaluated(patches: map<nat, AgentPatch>, rows: seq<Row>, config: Option<nat>): set<nat> {
    set p | p in patches && Wanted(patches[p], config) && !HasRow(rows, p)
  }

  /** What a pass selects. */
  lemma UnevaluatedMeaning(patches: map<nat, AgentPatch>, rows: seq<Row>, config: Option<nat>, p: nat)
    ensures p in Unevaluated(patches, rows, config) <==>
            && p in patches && patches[p].success && (config == None || config == Some(patches[p].config))
            && forall e :: 0 <= e < |rows| ==> rows[e].patch != p
  {
  }

  /** `n` is the number of issuers. */
  predicate Enabled(n: nat, s: State, e: Event) {
    match e
    case AddPatch(p, _) => p !in s.patches
    case Select(i, _) => i < n && PassOf(s, i).Idle?
    case Submit(i, p) => PassOf(s, i).Issuing? && p in s.issuers[i].todo
    case Insert(i, p) => PassOf(s, i).Issuing? && p in s.issuers[i].sent
    case Skip(i, p) => PassOf(s, i).Issuing?
    case Stop(i) => PassOf(s, i).Issuing?
    case End(job, _) => job < s.service.jobs && job !in s.service.ended
    case Read(e) => e < |s.rows| && s.rows[e].verdict.None?
    case Update(e) => e in s.polls && e < |s.rows| && JobVerdict(s, s.rows[e]).Some?
  }

  /** What the job of the row evaluates to, if it has ended and can be interpreted. */
  function JobVerdict(s: State, r: Row): Option<Evaluation> {
    if r.job.Some? && r.job.value in s.service.ended then s.service.ended[r.job.value] else None
  }

  function Apply(n: nat, s: State, e: Event): State
    requires Enabled(n, s, e)
  {
    match e
    case AddPatch(p, patch) => s.(patches := s.patches[p := patch])
    case Select(i, config) => s.(issuers := s.issuers[i := Issuing(Unevaluated(s.patches, s.rows, config), map[])])
    case Submit(i, p) =>
      s.(issuers := s.issuers[i := Issuing(s.issuers[i].todo - {p}, s.issuers[i].sent[p := s.service.jobs])],
         service := s.service.(jobs := s.service.jobs + 1))
    case Insert(i, p) =>
      s.(rows := s.rows + [Row(p, Some(s.issuers[i].sent[p]), None)],
         issuers := s.issuers[i := Issuing(s.issuers[i].todo, s.issuers[i].sent - {p})])
    case Skip(i, p) => s.(issuers := s.issuers[i := Issuing(s.issuers[i].todo - {p}, s.issuers[i].sent - {p})])
    case Stop(i) => s.(issuers := s.issuers[i := Idle])
    case End(job, evaluation) => s.(service := s.service.(ended := s.service.ended[job := evaluation]))
    case Read(e) => s.(polls := s.polls + multiset{e})
    case Update(e) =>
      s.(rows := s.rows[e := s.rows[e].(verdict := JobVerdict(s, s.rows[e]))], polls := s.polls - multiset{e})
  }

  /** Nobody is at work; the table may hold rows already. */
  ghost predicate Init(s: State) {
    s.issuers == map[] && s.polls == multiset{} && OneRowPerPatch(s.rows) && VerdictInv(s)
  }

  ghost predicate IsRun(n: nat, states: seq<State>, events: seq<Event>) {
    && |states| == |events| + 1 && Init(states[0])
    && forall i :: 0 <= i < |events| ==> IsStep(n, states, events, i)
  }

  ghost predicate IsStep(n: nat, states: seq<State>, events: seq<Event>, i: nat)
    requires i < |events| < |states|
  {
    Enabled(n, states[i], events[i]) && states[i + 1] == Apply(n, states[i], events[i])
  }

  // ---------------------------------------------------------------- one row per patch

  ghost predicate OneRowPerPatch(rows: seq<Row>) {
    forall a, b :: 0 <= a < b < |rows| ==> rows[a].patch != rows[b].patch
  }

  /** With issuer 0 alone: nothing it still has to submit or to insert has a row. */
  ghost predicate IssueInv(s: State) {
    && OneRowPerPatch(s.rows)
    && (forall i :: i in s.issuers ==> i == 0)
    && (PassOf(s, 0).Issuing? ==> Unissued(s.rows, s.issuers[0].todo, s.issuers[0].sent))
  }

  ghost predicate Unissued(rows: seq<Row>, todo: set<nat>, sent: map<nat, nat>) {
    && todo !! sent.Keys
    && forall e :: 0 <= e < |rows| ==> rows[e].patch !in todo && rows[e].patch !in sent
  }

  lemma StepKeepsIssueInv(s: State, e: Event)
    requires IssueInv(s) && Enabled(1, s, e)
    ensures IssueInv(Apply(1, s, e))
  {
    if e.Select? {
      assert forall x :: 0 <= x < |s.rows| ==> HasRow(s.rows, s.rows[x].patch);
    }
  }

  lemma {:induction false} RunKeepsIssueInv(n: nat, states: seq<State>, events: seq<Event>, k: nat)
    requires n <= 1 && IsRun(n, states, events) && k < |states|
    ensures IssueInv(states[k])
  {
    if k > 0 {
      RunKeepsIssueInv(n, states, events, k - 1);
      assert IsStep(n, states, events, k - 1);
      StepKeepsIssueInv(states[k - 1], events[k - 1]);
    }
  }

  ghost predicate NeverTwoRows(n: nat) {
    forall states: seq<State>, events, k :: IsRun(n, states, events) && 0 <= k < |states| ==>
        OneRowPerPatch(states[k].rows)
  }

  ghost predicate Reachable(n: nat, s: State) {
    exists states: seq<State>, events: seq<Event> :: IsRun(n, states, events) && states[|events|] == s
  }

  lemma ReachableInit(n: nat, s: State)
    requires Init(s)
    ensures Reachable(n, s)
  {
    var states, events: seq<Event> := [s], [];
    assert IsRun(n, states, events) && states[|events|] == s;
  }

  lemma ReachableStep(n: nat, s: State, e: Event)
    requires Reachable(n, s) && Enabled(n, s, e)
    ensures Reachable(n, Apply(n, s, e))
  {
    var states: seq<State>, events: seq<Event> :| IsRun(n, states, events) && states[|events|] == s;
    var states', events' := states + [Apply(n, s, e)], events + [e];
    forall i | 0 <= i < |events'| ensures IsStep(n, states', events', i) {
      if i < |events| { assert IsStep(n, states, events, i); }
    }
    assert IsRun(n, states', events') && states'[|events'|] == Apply(n, s, e);
  }

  const PATCHES := map[7 := AgentPatch(true, 0)]

  function BothSelected(): State {
    State(PATCHES, [], map[0 := Issuing({7}, map[]), 1 := Issuing({7}, map[])], multiset{}, Service(0, map[]))
  }

  lemma BothSelect(n: nat)
    requires n >= 2
    ensures Reachable(n, BothSelected())
  {
    var s0 := State(map[], [], map[], multiset{}, Service(0, map[]));
    ReachableInit(n, s0);
    var add := AddPatch(7, AgentPatch(true, 0));
    ReachableStep(n, s0, add);
    var s1 := Apply(n, s0, add);
    assert Unevaluated(s1.patches, s1.rows, None) == {7};
    ReachableStep(n, s1, Select(0, None));
    var s2 := Apply(n, s1, Select(0, None));
    ReachableStep(n, s2, Select(1, None));
    assert Apply(n, s2, Select(1, None)) == BothSelected();
  }

  function BothSent(): State {
    State(PATCHES, [], map[0 := Issuing({}, map[7 := 0]), 1 := Issuing({}, map[7 := 1])], multiset{}, Service(2, map[]))
  }

  lemma BothSubmit(n: nat)
    requires n >= 2
    ensures Reachable(n, BothSent())
  {
    BothSelect(n);
    ReachableStep(n, BothSelected(), Submit(0, 7));
    var s1 := Apply(n, BothSelected(), Submit(0, 7));
    ReachableStep(n, s1, Submit(1, 7));
    assert {7} - {7} == {};
    assert Apply(n, s1, Submit(1, 7)) == BothSent();
  }

  /** Two passes that select before either inserts. */
  lemma TwoIssuersEvaluateTwice(n: nat)
    requires n >= 2
    ensures !NeverTwoRows(n)
  {
    BothSubmit(n);
    ReachableStep(n, BothSent(), Insert(0, 7));
    var s1 := Apply(n, BothSent(), Insert(0, 7));
    ReachableStep(n, s1, Insert(1, 7));
    var s2 := Apply(n, s1, Insert(1, 7));
    assert s2.rows[0].patch == s2.rows[1].patch;
    RefutesNeverTwoRows(n, s2);
  }

  lemma RefutesNeverTwoRows(n: nat, s: State)
    requires Reachable(n, s) && !OneRowPerPatch(s.rows)
    ensures !NeverTwoRows(n)
  {
    var states: seq<State>, events: seq<Event> :| IsRun(n, states, events) && states[|events|] == s;
    assert IsRun(n, states, events) && !OneRowPerPatch(states[|events|].rows);
  }

  /** Over every interleaving of passes, crashes, pollers and new patches, no patch gets two rows exactly
      if there is at most one issuer. */
  lemma OneRowIff(n: nat)
    ensures NeverTwoRows(n) <==> n <= 1
  {
    if n <= 1 {
      forall states: seq<State>, events: seq<Event>, k | IsRun(n, states, events) && 0 <= k < |states|
        ensures OneRowPerPatch(states[k].rows)
      {
        RunKeepsIssueInv(n, states, events, k);
      }
    } else {
      TwoIssuersEvaluateTwice(n);
    }
  }

  // ---------------------------------------------------------------- verdicts

  /** A verdict is that of the row's own job, which has ended. */
  predicate VerdictOfJob(s: State, r: Row) {
    match r.job
    case Some(job) => job < s.service.jobs && (r.verdict.Some? ==> JobVerdict(s, r) == r.verdict)
    case None => r.verdict.Some?
  }

  ghost predicate VerdictInv(s: State) {
    && (forall e :: 0 <= e < |s.rows| ==> VerdictOfJob(s, s.rows[e]))
    && (forall i, p :: i in s.issuers && s.issuers[i].Issuing? && p in s.issuers[i].sent ==>
                         s.issuers[i].sent[p] < s.service.jobs)
  }

  lemma StepKeepsVerdictInv(n: nat, s: State, e: Event)
    requires VerdictInv(s) && Enabled(n, s, e)
    ensures VerdictInv(Apply(n, s, e))
  {
  }

  lemma {:induction false} RunKeepsVerdictInv(n: nat, states: seq<State>, events: seq<Event>, k: nat)
    requires IsRun(n, states, events) && k < |states|
    ensures VerdictInv(states[k])
  {
    if k > 0 {
      RunKeepsVerdictInv(n, states, events, k - 1);
      assert IsStep(n, states, events, k - 1);
      StepKeepsVerdictInv(n, states[k - 1], events[k - 1]);
    }
  }

  /** A row keeps its patch and its job, and its verdict once it has one. */
  predicate Follows(before: Row, after: Row) {
    before == after || (before.verdict.None? && after.patch == before.patch && after.job == before.job)
  }

  /** Rows stay, and a verdict goes from missing to that of the job and never changes again, although every
      poller that read the row without a verdict may write it. */
  lemma {:induction false} VerdictIsWrittenOnce(n: nat, states: seq<State>, events: seq<Event>, j: nat, k: nat, e: nat)
    requires IsRun(n, states, events) && j <= k < |states| && e < |states[j].rows|
    ensures e < |states[k].rows| && Follows(states[j].rows[e], states[k].rows[e])
    ensures VerdictOfJob(states[k], states[k].rows[e])
    decreases k
  {
    RunKeepsVerdictInv(n, states, events, k);
    if j < k {
      VerdictIsWrittenOnce(n, states, events, j, k - 1, e);
      assert IsStep(n, states, events, k - 1);
    }
  }

  /** One row whose job has ended with `v`, read by two pollers while it had no verdict. */
  function ReadTwice(v: Evaluation, verdict: Option<Evaluation>, polls: multiset<nat>): State {
    State(map[], [Row(7, Some(0), verdict)], map[], polls, Service(1, map[0 := Some(v)]))
  }

  lemma BothRead(v: Evaluation)
    ensures Reachable(1, ReadTwice(v, None, multiset{0, 0}))
  {
    var s0 := State(map[], [Row(7, Some(0), None)], map[], multiset{}, Service(1, map[]));
    ReachableInit(1, s0);
    ReachableStep(1, s0, Read(0));
    var s1 := Apply(1, s0, Read(0));
    ReachableStep(1, s1, Read(0));
    var s2 := Apply(1, s1, Read(0));
    ReachableStep(1, s2, End(0, Some(v)));
    assert s2.polls == multiset{0, 0};
    assert Apply(1, s2, End(0, Some(v))) == ReadTwice(v, None, multiset{0, 0});
  }

  /** Two pollers do write one row, and the second finds the verdict that it is about to write. */
  lemma SecondWriteHappens(v: Evaluation)
    ensures var written := ReadTwice(v, Some(v), multiset{0});
            && Reachable(1, written) && Enabled(1, written, Update(0))
            && Apply(1, written, Update(0)) == ReadTwice(v, Some(v), multiset{})
  {
    BothRead(v);
    var polled := ReadTwice(v, None, multiset{0, 0});
    ReachableStep(1, polled, Update(0));
    assert multiset{0, 0} - multiset{0} == multiset{0};
    assert Apply(1, polled, Update(0)) == ReadTwice(v, Some(v), multiset{0});
  }

  // ---------------------------------------------------------------- the database and the passes

  /** The verdict column for what interpreting a job gives. */
  function Recorded(r: Result<Verdict, Problem>): Option<Evaluation> {
    match r
    case Success(v) => Some(v.evaluation)
    case Failure(_) => None
  }

  lemma OneMoreRow(rows: seq<Row>, row: Row)
    ensures forall q :: HasRow(rows + [row], q) <==> HasRow(rows, q) || q == row.patch
    ensures OneRowPerPatch(rows) && !HasRow(rows, row.patch) ==> OneRowPerPatch(rows + [row])
  {
    assert (rows + [row])[|rows|] == row;
    forall q | HasRow(rows, q) ensures HasRow(rows + [row], q) {
      var x :| 0 <= x < |rows| && rows[x].patch == q;
      assert (rows + [row])[x].patch == q;
    }
  }

  /** Rows without verdict, each with a job of its own from among the new ones. */
  ghost predicate NewRows(rows: seq<Row>, first: nat, jobs: nat) {
    && (forall e :: 0 <= e < |rows| ==> rows[e].verdict.None? && rows[e].job.Some? && first <= rows[e].job.value < jobs)
    && forall a, b :: 0 <= a < b < |rows| ==> rows[a].job.value < rows[b].job.value
  }

  /** The rows and the number of jobs after one submission. */
  function Submitted(rows: seq<Row>, jobs: nat, p: nat, submits: bool, inserts: bool): (seq<Row>, nat) {
    (if submits && inserts then rows + [Row(p, Some(jobs), None)] else rows, if submits then jobs + 1 else jobs)
  }

  /** A pass has dealt with the patches in `done`: exactly those of them whose job was submitted and whose
      row was inserted have got a row, each with a new job of its own, and no patch has got two. */
  ghost predicate PassMade(rows0: seq<Row>, jobs0: nat, rows: seq<Row>, jobs: nat,
                           done: set<nat>, unsubmitted: set<nat>, uninserted: set<nat>) {
    && rows0 <= rows
    && (forall p :: HasRow(rows, p) <==> HasRow(rows0, p) || (p in done && p !in unsubmitted && p !in uninserted))
    && (OneRowPerPatch(rows0) ==> OneRowPerPatch(rows))
    && NewRows(rows[|rows0|..], jobs0, jobs)
    && jobs == jobs0 + |done - unsubmitted|
  }

  lemma PassStarts(rows: seq<Row>, jobs: nat, unsubmitted: set<nat>, uninserted: set<nat>)
    ensures PassMade(rows, jobs, rows, jobs, {}, unsubmitted, uninserted)
  {
  }

  lemma PassGrows(rows0: seq<Row>, jobs0: nat, rows: seq<Row>, jobs: nat, rows': seq<Row>, jobs': nat,
                  done: set<nat>, unsubmitted: set<nat>, uninserted: set<nat>, p: nat)
    requires PassMade(rows0, jobs0, rows, jobs, done, unsubmitted, uninserted) && p !in done && !HasRow(rows0, p)
    requires (rows', jobs') == Submitted(rows, jobs, p, p !in unsubmitted, p !in uninserted)
    ensures PassMade(rows0, jobs0, rows', jobs', done + {p}, unsubmitted, uninserted)
  {
    if p in unsubmitted {
      assert (done + {p}) - unsubmitted == done - unsubmitted;
    } else {
      assert (done + {p}) - unsubmitted == (done - unsubmitted) + {p};
      if p !in uninserted {
        var row := Row(p, Some(jobs), None);
        OneMoreRow(rows, row);
        assert (rows + [row])[|rows0|..] == rows[|rows0|..] + [row];
      }
    }
  }

  class EvaluationDatabase {
    var patches: map<nat, AgentPatch>
    var rows: seq<Row>
    var jobs: nat

    constructor (patches: map<nat, AgentPatch>, rows: seq<Row>, jobs: nat)
      ensures this.patches == patches && this.rows == rows && this.jobs == jobs
    {
      this.patches, this.rows, this.jobs := patches, rows, jobs;
    }

    method GetYetEvaluatedAgentPatches(config: Option<nat>) returns (ids: set<nat>)
      ensures ids == Unevaluated(patches, rows, config)
    {
      ids := set p | p in patches && Wanted(patches[p], config);
      for e := 0 to |rows|
        invariant ids == Unevaluated(patches, rows[..e], config)
      {
        ids := ids - {rows[e].patch};
        OneMoreRow(rows[..e], rows[e]);
        assert rows[..e + 1] == rows[..e] + [rows[e]];
      }
      assert rows[..|rows|] == rows;
    }

    /** The first phase: the job exists from now on, whatever happens to the row. */
    method SubmitEval() returns (job: nat)
      modifies this`jobs
      ensures job == old(jobs) && jobs == old(jobs) + 1
    {
      job := jobs;
      jobs := jobs + 1;
    }

    method InsertCrashResolutionEval(p: nat, job: nat)
      modifies this`rows
      ensures rows == old(rows) + [Row(p, Some(job), None)]
    {
      rows := rows + [Row(p, Some(job), None)];
    }

    /** One task of an issuing pass; a submission or an insertion that raises is logged and skipped. */
    method SubmitSingle(p: nat, submits: bool, inserts: bool)
      modifies this`rows, this`jobs
      ensures (rows, jobs) == Submitted(old(rows), old(jobs), p, submits, inserts)
    {
      if submits {
        var job := SubmitEval();
        if inserts {
          InsertCrashResolutionEval(p, job);
        }
      }
    }

    /** One issuing pass.  `unsubmitted` are the patches whose submission raises, `uninserted` those
        whose job is created but whose row cannot be inserted. */
    method SubmitCrashResolutionEvaluations(config: Option<nat>, unsubmitted: set<nat>, uninserted: set<nat>)
      modifies this`rows, this`jobs
      ensures PassMade(old(rows), old(jobs), rows, jobs, Unevaluated(patches, old(rows), config), unsubmitted,
                uninserted)
    {
      var todo := GetYetEvaluatedAgentPatches(config);
      ghost var selected, done: set<nat> := todo, {};
      PassStarts(rows, jobs, unsubmitted, uninserted);
      while todo != {}
        invariant todo + done == selected && todo !! done
        invariant PassMade(old(rows), old(jobs), rows, jobs, done, unsubmitted, uninserted)
        decreases todo
      {
        var p :| p in todo;
        assert p in selected && !HasRow(old(rows), p);
        ghost var before, created := rows, jobs;
        SubmitSingle(p, p !in unsubmitted, p !in uninserted);
        PassGrows(old(rows), old(jobs), before, created, rows, jobs, done, unsubmitted, uninserted, p);
        todo := todo - {p};
        done := done + {p};
      }
      assert done == selected;
    }

    /** One polling pass: `ended` are the jobs that the service reports finished or aborted.  A row is
        left without verdict exactly if its job still runs or cannot be interpreted. */
    method PopulateCrashResolutionEvaluations(ended: map<nat, Job>)
      modifies this`rows
      ensures |rows| == |old(rows)|
      ensures forall e :: 0 <= e < |rows| ==> Follows(old(rows)[e], rows[e])
      ensures forall e :: 0 <= e < |rows| && old(rows)[e].verdict.None? && rows[e].verdict.Some? ==>
                RowRecords(ended, rows[e], rows[e].verdict)
      ensures forall e :: 0 <= e < |rows| && rows[e].verdict.None? ==>
                NotEnded(ended, rows[e]) || RowRecords(ended, rows[e], None)
    {
      for e := 0 to |rows|
        invariant |rows| == |old(rows)|
        invariant forall x :: e <= x < |rows| ==> rows[x] == old(rows)[x]
        invariant forall x :: 0 <= x < e ==> Follows(old(rows)[x], rows[x])
        invariant forall x :: 0 <= x < e && old(rows)[x].verdict.None? && rows[x].verdict.Some? ==>
                    RowRecords(ended, rows[x], rows[x].verdict)
        invariant forall x :: 0 <= x < e && rows[x].verdict.None? ==>
                    NotEnded(ended, rows[x]) || RowRecords(ended, rows[x], None)
      {
        if rows[e].verdict.None? && !NotEnded(ended, rows[e]) {
          var job := ended[rows[e].job.value];
          var r := InterpretVerdict(job);
          assert MayRecord(job, r, Recorded(r));
          if r.Success? {
            rows := rows[e := rows[e].(verdict := Some(r.value.evaluation))];
          }
        }
      }
    }
  }

  /** The service does not report the row's job as ended. */
  predicate NotEnded(ended: map<nat, Job>, row: Row) {
    row.job.None? || row.job.value !in ended
  }

  ghost predicate RowRecords(ended: map<nat, Job>, row: Row, verdict: Option<Evaluation>) {
    !NotEnded(ended, row) && IsRecorded(ended[row.job.value], verdict)
  }

  /** The column's new value is what the job's verdict, as the interpretation defines it, records. */
  ghost predicate IsRecorded(job: Job, verdict: Option<Evaluation>) {
    exists r: Result<Verdict, Problem> :: MayRecord(job, r, verdict)
  }

  ghost predicate MayRecord(job: Job, r: Result<Verdict, Problem>, verdict: Option<Evaluation>) {
    verdict == Recorded(r) && Interprets(job, r)
  }
}
