/** Turning a finished build-and-boot job into a verdict: did the built image come up on some machine,
    and did any machine crash in a way that counts. */
module KGymVerdict {
  import opened KArenaModels
  import opened Prelude

  datatype JobStatus = Pending | InProgress | WaitingForSlot | Aborted | Finished

  datatype WorkerType = KBuilder | KVMManager | OtherWorker

  datatype Image = ErrorImage | WarningImage | NormalImage

  datatype Crash = Crash(special: bool, title: string, incidents: seq<string>)

  datatype WorkerResult = WorkerResult(exceptionCode: Option<string>, ability: Image, crashes: Option<seq<Crash>>)

  datatype Worker = Worker(kind: WorkerType, result: Option<WorkerResult>)

  datatype Job = Job(status: JobStatus, workers: seq<Worker>)

  datatype Verdict = Verdict(evaluation: Evaluation, image: Option<Image>, title: Option<string>,
                             resources: Option<string>)

  /** What the interpretation raises: the job has no worker, a machine left no result, or the crash to
      report has no incident. */
  datatype Problem = NoWorker | NoResult | NoIncident

  // ---------------------------------------------------------------- what the loops mean

  function Rank(i: Image): nat {
    match i case ErrorImage => 0 case WarningImage => 1 case NormalImage => 2
  }

  /** The best ability any machine reports, and `ErrorImage` without machines. */
  ghost predicate IsBest(image: Image, results: seq<WorkerResult>) {
    && (forall r :: r in results ==> Rank(r.ability) <= Rank(image))
    && (image == ErrorImage || exists r :: r in results && r.ability == image)
  }

  predicate IsReal(results: seq<WorkerResult>, w: nat, c: nat) {
    w < |results| && results[w].crashes.Some? && c < |results[w].crashes.value| && !results[w].crashes.value[c].special
  }

  /** No machine before `w` has a crash that counts, and crash `c` is the first one of machine `w`. */
  ghost predicate IsFirst(results: seq<WorkerResult>, w: nat, c: nat) {
    IsReal(results, w, c) && forall v, d :: 0 <= v && 0 <= d && IsReal(results, v, d) ==> w < v || (w == v && c <= d)
  }

  ghost predicate HasReal(results: seq<WorkerResult>) {
    exists w: nat, c: nat :: IsReal(results, w, c)
  }

  predicate IsKilledBuild(code: Option<string>) {
    code == Some("kbuilder.KernelBuildError") || code == Some("kbuilder.PatchApplicationError")
  }

  function MachineResults(workers: seq<Worker>): seq<Option<WorkerResult>> {
    if workers == [] then []
    else
      MachineResults(workers[..|workers| - 1]) +
      if workers[|workers| - 1].kind == KVMManager then [workers[|workers| - 1].result] else []
  }

  function Values(results: seq<Option<WorkerResult>>): seq<WorkerResult>
    requires None !in results
  {
    seq(|results|, i requires 0 <= i < |results| => (assert results[i] in results; results[i].value))
  }

  /** The verdict over the machines' results, said without loops. */
  ghost predicate IsVerdict(results: seq<Option<WorkerResult>>, r: Result<Verdict, Problem>) {
    if None in results then r == Failure(NoResult)
    else IsMachineVerdict(Values(results), r)
  }

  ghost predicate IsMachineVerdict(rs: seq<WorkerResult>, r: Result<Verdict, Problem>) {
    if IsBest(ErrorImage, rs) then r == Success(Verdict(ImageError, Some(ErrorImage), None, None))
    else if !HasReal(rs)
    then r.Success? && r.value.image.Some? && IsBest(r.value.image.value, rs)
        && r.value == Verdict(NotReproduced, r.value.image, None, None)
    else exists w: nat, c: nat :: IsFirst(rs, w, c) && Reports(rs, rs[w].crashes.value[c], r)
  }

  ghost predicate Reports(rs: seq<WorkerResult>, crash: Crash, r: Result<Verdict, Problem>) {
    if crash.incidents == [] then r == Failure(NoIncident)
    else
      && r.Success? && r.value.image.Some? && IsBest(r.value.image.value, rs)
      && r.value == Verdict(Reproduced, r.value.image, Some(crash.title), Some(crash.incidents[0]))
  }

  ghost predicate Interprets(job: Job, r: Result<Verdict, Problem>) {
    if job.status == Finished then IsVerdict(MachineResults(job.workers), r)
    else if job.workers == [] then r == Failure(NoWorker)
    else
      var first := job.workers[0].result;
      var killed := first.Some? && IsKilledBuild(first.value.exceptionCode);
      r == Success(Verdict(if killed then CompilationError else JobError, None, None, None))
  }

  /** This leaves nothing open: a job has one interpretation. */
  lemma InterpretationIsUnique(job: Job, a: Result<Verdict, Problem>, b: Result<Verdict, Problem>)
    requires Interprets(job, a) && Interprets(job, b)
    ensures a == b
  {
    var results := MachineResults(job.workers);
    if job.status == Finished && None !in results {
      MachineVerdictIsUnique(Values(results), a, b);
    }
  }

  lemma MachineVerdictIsUnique(rs: seq<WorkerResult>, a: Result<Verdict, Problem>, b: Result<Verdict, Problem>)
    requires IsMachineVerdict(rs, a) && IsMachineVerdict(rs, b)
    ensures a == b
  {
    if !IsBest(ErrorImage, rs) {
      SameBest(rs, a, b);
      if HasReal(rs) {
        var v: nat, c: nat :| IsFirst(rs, v, c) && Reports(rs, rs[v].crashes.value[c], a);
        var w: nat, d: nat :| IsFirst(rs, w, d) && Reports(rs, rs[w].crashes.value[d], b);
        assert IsReal(rs, v, c) && IsReal(rs, w, d);
      }
    }
  }

  // ---------------------------------------------------------------- the interpretation

  method InterpretVerdict(job: Job) returns (r: Result<Verdict, Problem>)
    ensures Interprets(job, r)
    ensures if job.status == Finished then IsFinishedVerdict(job, r) else IsUnfinishedVerdict(job, r)
  {
    if job.status != Finished {
      if job.workers == [] {
        r := Failure(NoWorker);
      } else {
        var first := job.workers[0].result;
        var evaluation := JobError;
        if first.Some? && IsKilledBuild(first.value.exceptionCode) {
          evaluation := CompilationError;
        }
        r := Success(Verdict(evaluation, None, None, None));
      }
    } else {
      var results := [];
      for i := 0 to |job.workers|
        invariant results == MachineResults(job.workers[..i])
      {
        assert job.workers[..i + 1][..i] == job.workers[..i];
        if job.workers[i].kind == KVMManager {
          results := results + [job.workers[i].result];
        }
      }
      assert job.workers[..|job.workers|] == job.workers;
      r := JudgeMachines(results);
    }
    WorkersDecide(job, r);
  }

  method JudgeMachines(results: seq<Option<WorkerResult>>) returns (r: Result<Verdict, Problem>)
    ensures IsVerdict(results, r)
  {
    var image := ErrorImage;
    for i := 0 to |results|
      invariant None !in results[..i]
      invariant IsBest(image, Values(results[..i]))
    {
      if results[i] == None {
        return Failure(NoResult);
      }
      var result := results[i].value;
      assert Values(results[..i + 1]) == Values(results[..i]) + [result];
      if result.ability == NormalImage {
        image := NormalImage;
      } else if result.ability == WarningImage && image != NormalImage {
        image := WarningImage;
      }
    }
    assert results[..|results|] == results;
    ghost var rs := Values(results);
    BestIsUnique(rs, image, ErrorImage);
    if image == ErrorImage {
      return Success(Verdict(ImageError, Some(ErrorImage), None, None));
    }
    for i := 0 to |results|
      invariant forall v, d :: 0 <= v < i && 0 <= d ==> !IsReal(rs, v, d)
    {
      assert results[i] in results && rs[i] == results[i].value;
      if results[i].value.crashes.Some? {
        var crashes := results[i].value.crashes.value;
        for j := 0 to |crashes|
          invariant forall d :: 0 <= d < j ==> !IsReal(rs, i, d)
        {
          if !crashes[j].special {
            assert IsReal(rs, i, j) && IsFirst(rs, i, j);
            if crashes[j].incidents == [] {
              r := Failure(NoIncident);
            } else {
              r := Success(Verdict(Reproduced, Some(image), Some(crashes[j].title), Some(crashes[j].incidents[0])));
            }
            assert Reports(rs, rs[i].crashes.value[j], r);
            return;
          }
        }
      }
    }
    r := Success(Verdict(NotReproduced, Some(image), None, None));
  }

  // ---------------------------------------------------------------- the verdict in terms of the workers

  predicate IsMachine(job: Job, w: nat) {
    w < |job.workers| && job.workers[w].kind == KVMManager
  }

  predicate LeftNoResult(job: Job, w: nat) {
    IsMachine(job, w) && job.workers[w].result.None?
  }

  predicate Reached(job: Job, w: nat, image: Image) {
    IsMachine(job, w) && job.workers[w].result.Some? && job.workers[w].result.value.ability == image
  }

  /** Crash `c` of machine `w` counts. */
  predicate RealCrash(job: Job, w: nat, c: nat) {
    && IsMachine(job, w) && job.workers[w].result.Some?
    && RealAt(job.workers[w].result.value, c)
  }

  function CrashOf(job: Job, w: nat, c: nat): Crash
    requires RealCrash(job, w, c)
  {
    job.workers[w].result.value.crashes.value[c]
  }

  /** The first crash that counts, in the order of the workers and then of the crashes of one of them. */
  ghost predicate FirstCrash(job: Job, w: nat, c: nat) {
    RealCrash(job, w, c) && forall v: nat, d: nat :: RealCrash(job, v, d) ==> w < v || (w == v && c <= d)
  }

  /** The best ability among the machines. */
  ghost predicate BestImage(job: Job, image: Image) {
    && (forall w: nat, i: Image :: Reached(job, w, i) ==> Rank(i) <= Rank(image))
    && (image == ErrorImage || exists w: nat :: Reached(job, w, image))
  }

  ghost predicate IsReported(job: Job, w: nat, c: nat, r: Result<Verdict, Problem>) {
    FirstCrash(job, w, c) &&
    var crash := CrashOf(job, w, c);
    if crash.incidents == [] then r == Failure(NoIncident)
    else
      && r.Success? && r.value.image.Some? && BestImage(job, r.value.image.value)
      && r.value == Verdict(Reproduced, r.value.image, Some(crash.title), Some(crash.incidents[0]))
  }

  /** The verdict on a finished job. */
  ghost predicate IsFinishedVerdict(job: Job, r: Result<Verdict, Problem>) {
    if exists w: nat :: LeftNoResult(job, w) then r == Failure(NoResult)
    else if BestImage(job, ErrorImage) then r == Success(Verdict(ImageError, Some(ErrorImage), None, None))
    else if exists w: nat, c: nat :: RealCrash(job, w, c) then exists w: nat, c: nat :: IsReported(job, w, c, r)
    else
      && r.Success? && r.value.image.Some? && BestImage(job, r.value.image.value)
      && r.value == Verdict(NotReproduced, r.value.image, None, None)
  }

  /** The verdict on a job that did not finish comes from its first worker. */
  predicate IsUnfinishedVerdict(job: Job, r: Result<Verdict, Problem>) {
    if job.workers == [] then r == Failure(NoWorker)
    else
      var first := job.workers[0].result;
      var code := if first.Some? then first.value.exceptionCode else None;
      r == Success(Verdict(if code in {Some("kbuilder.KernelBuildError"), Some("kbuilder.PatchApplicationError")}
                           then CompilationError else JobError, None, None, None))
  }

  /** `at` lists the places of the machines among the workers, in order. */
  ghost predicate ArePlaces(job: Job, at: seq<nat>) {
    && |at| == |MachineResults(job.workers)|
    && (forall i :: 0 <= i < |at| ==>
          IsMachine(job, at[i]) && MachineResults(job.workers)[i] == job.workers[at[i]].result)
    && (forall i, j :: 0 <= i < j < |at| ==> at[i] < at[j])
    && forall w: nat :: IsMachine(job, w) ==> w in at
  }

  lemma {:induction false} Places(job: Job) returns (at: seq<nat>)
    ensures ArePlaces(job, at)
    decreases |job.workers|
  {
    at := [];
    if job.workers != [] {
      var n := |job.workers| - 1;
      var front := job.(workers := job.workers[..n]);
      var before := Places(front);
      at := before + if job.workers[n].kind == KVMManager then [n] else [];
      forall w: nat | IsMachine(job, w) ensures w in at {
        if w < n { assert IsMachine(front, w) && w in before; }
      }
      forall i | 0 <= i < |before| ensures IsMachine(front, before[i]) && before[i] < n {
      }
    }
  }

  lemma NoneIsLeft(job: Job, at: seq<nat>)
    requires ArePlaces(job, at)
    ensures None in MachineResults(job.workers) <==> exists w: nat :: LeftNoResult(job, w)
  {
    var results := MachineResults(job.workers);
    if None in results {
      var i :| 0 <= i < |results| && results[i] == None;
      assert LeftNoResult(job, at[i]);
    }
    if w: nat :| LeftNoResult(job, w) {
      var i :| 0 <= i < |at| && at[i] == w;
      assert results[i] == None;
    }
  }

  lemma BestIsBest(job: Job, at: seq<nat>, image: Image)
    requires ArePlaces(job, at) && None !in MachineResults(job.workers)
    ensures IsBest(image, Values(MachineResults(job.workers))) <==> BestImage(job, image)
  {
    var rs := Values(MachineResults(job.workers));
    forall w: nat, i: Image | Reached(job, w, i) ensures exists r :: r in rs && r.ability == i {
      var x :| 0 <= x < |at| && at[x] == w;
      assert rs[x] in rs;
    }
    forall r | r in rs ensures exists w: nat :: Reached(job, w, r.ability) {
      var x :| 0 <= x < |rs| && rs[x] == r;
      assert Reached(job, at[x], r.ability);
    }
  }

  lemma RealIsReal(job: Job, at: seq<nat>, i: nat, c: nat)
    requires ArePlaces(job, at) && None !in MachineResults(job.workers) && i < |at|
    ensures IsReal(Values(MachineResults(job.workers)), i, c) <==> RealCrash(job, at[i], c)
  {
    assert MachineResults(job.workers)[i] in MachineResults(job.workers);
  }

  lemma FirstIsFirst(job: Job, at: seq<nat>, i: nat, c: nat)
    requires ArePlaces(job, at) && None !in MachineResults(job.workers) && i < |at|
    ensures IsFirst(Values(MachineResults(job.workers)), i, c) <==> FirstCrash(job, at[i], c)
  {
    var rs := Values(MachineResults(job.workers));
    RealIsReal(job, at, i, c);
    if IsFirst(rs, i, c) {
      forall v: nat, d: nat | RealCrash(job, v, d) ensures at[i] < v || (at[i] == v && c <= d) {
        var x :| 0 <= x < |at| && at[x] == v;
        RealIsReal(job, at, x, d);
        assert IsReal(rs, x, d);
      }
    }
    if FirstCrash(job, at[i], c) {
      forall v, d | 0 <= v && 0 <= d && IsReal(rs, v, d) ensures i < v || (i == v && c <= d) {
        RealIsReal(job, at, v, d);
        assert RealCrash(job, at[v], d);
      }
    }
  }

  lemma CrashIsCrash(job: Job, at: seq<nat>, r: Result<Verdict, Problem>)
    requires ArePlaces(job, at) && None !in MachineResults(job.workers)
    ensures var rs := Values(MachineResults(job.workers));
            && (HasReal(rs) <==> exists w: nat, c: nat :: RealCrash(job, w, c))
            && ((exists w: nat, c: nat :: IsFirst(rs, w, c) && Reports(rs, rs[w].crashes.value[c], r)) <==>
                exists w: nat, c: nat :: IsReported(job, w, c, r))
  {
    var rs := Values(MachineResults(job.workers));
    forall image ensures IsBest(image, rs) <==> BestImage(job, image) {
      BestIsBest(job, at, image);
    }
    if w: nat, c: nat :| IsReal(rs, w, c) {
      RealIsReal(job, at, w, c);
    }
    if w: nat, c: nat :| RealCrash(job, w, c) {
      var x :| 0 <= x < |at| && at[x] == w;
      RealIsReal(job, at, x, c);
    }
    if w: nat, c: nat :| IsFirst(rs, w, c) && Reports(rs, rs[w].crashes.value[c], r) {
      FirstIsFirst(job, at, w, c);
      assert IsReported(job, at[w], c, r);
    }
    if w: nat, c: nat :| IsReported(job, w, c, r) {
      var x :| 0 <= x < |at| && at[x] == w;
      FirstIsFirst(job, at, x, c);
      assert Reports(rs, rs[x].crashes.value[c], r);
    }
  }

  /** What a job's interpretation says about its workers: the machines alone decide a finished job, wherever
      they stand, and the first worker one that did not finish. */
  lemma WorkersDecide(job: Job, r: Result<Verdict, Problem>)
    ensures Interprets(job, r) <==>
            if job.status == Finished then IsFinishedVerdict(job, r) else IsUnfinishedVerdict(job, r)
  {
    if job.status == Finished {
      var at := Places(job);
      NoneIsLeft(job, at);
      if None !in MachineResults(job.workers) {
        BestIsBest(job, at, ErrorImage);
        CrashIsCrash(job, at, r);
        if r.Success? && r.value.image.Some? { BestIsBest(job, at, r.value.image.value); }
      }
    }
  }

  lemma {:induction false} ResultsAppend(a: seq<Worker>, b: seq<Worker>)
    ensures MachineResults(a + b) == MachineResults(a) + MachineResults(b)
  {
    if b == [] {
      assert a + b == a;
    } else {
      ResultsAppend(a, b[..|b| - 1]);
      assert (a + b)[..|a + b| - 1] == a + b[..|b| - 1];
    }
  }

  /** A worker of another kind changes nothing, wherever it stands in a finished job. */
  lemma OthersDoNotCount(a: seq<Worker>, other: Worker, b: seq<Worker>, r: Result<Verdict, Problem>)
    requires other.kind != KVMManager
    ensures Interprets(Job(Finished, a + [other] + b), r) <==> Interprets(Job(Finished, a + b), r)
  {
    ResultsAppend(a + [other], b);
    ResultsAppend(a, [other]);
    ResultsAppend(a, b);
    assert [other][..0] == [] && MachineResults([other]) == [];
    assert MachineResults(a + [other]) == MachineResults(a);
  }

  // ---------------------------------------------------------------- the order of the machines

  lemma BestIsUnique(rs: seq<WorkerResult>, a: Image, b: Image)
    requires IsBest(a, rs)
    ensures IsBest(b, rs) <==> a == b
  {
  }

  predicate RealAt(r: WorkerResult, c: nat) {
    r.crashes.Some? && c < |r.crashes.value| && !r.crashes.value[c].special
  }

  predicate FirstAt(r: WorkerResult, c: nat) {
    RealAt(r, c) && forall d :: 0 <= d < c ==> !RealAt(r, d)
  }

  /** The machine's first crash that counts has an incident, or has none. */
  ghost predicate Good(r: WorkerResult) {
    exists c: nat :: FirstAt(r, c) && r.crashes.value[c].incidents != []
  }

  ghost predicate Bad(r: WorkerResult) {
    exists c: nat :: FirstAt(r, c) && r.crashes.value[c].incidents == []
  }

  ghost predicate Mixed(rs: seq<WorkerResult>) {
    (exists r :: r in rs && Good(r)) && exists r :: r in rs && Bad(r)
  }

  /** The image and the evaluation, or the problem. */
  function Gist(r: Result<Verdict, Problem>): Result<(Evaluation, Option<Image>), Problem> {
    match r
    case Success(v) => Success((v.evaluation, v.image))
    case Failure(p) => Failure(p)
  }

  ghost predicate SameMachines(a: seq<WorkerResult>, b: seq<WorkerResult>) {
    forall r :: r in a <==> r in b
  }

  lemma RealInMember(rs: seq<WorkerResult>)
    ensures HasReal(rs) <==> exists r, c: nat :: r in rs && RealAt(r, c)
  {
    if HasReal(rs) {
      var w: nat, c: nat :| IsReal(rs, w, c);
      assert rs[w] in rs && RealAt(rs[w], c);
    }
    if r, c: nat :| r in rs && RealAt(r, c) {
      var w :| 0 <= w < |rs| && rs[w] == r;
      assert IsReal(rs, w, c);
    }
  }

  lemma FirstIsMembers(rs: seq<WorkerResult>, w: nat, c: nat)
    requires IsFirst(rs, w, c)
    ensures FirstAt(rs[w], c) && rs[w] in rs
    ensures rs[w].crashes.value[c].incidents == [] <==> Bad(rs[w])
    ensures rs[w].crashes.value[c].incidents != [] <==> Good(rs[w])
  {
    forall d | 0 <= d < c ensures !RealAt(rs[w], d) {
      assert !IsReal(rs, w, d);
    }
  }

  lemma MachinesDecide(a: seq<WorkerResult>, b: seq<WorkerResult>,
                       ra: Result<Verdict, Problem>, rb: Result<Verdict, Problem>)
    requires SameMachines(a, b) && IsMachineVerdict(a, ra) && IsMachineVerdict(b, rb)
    ensures IsBest(ErrorImage, a) || !Mixed(a) ==> Gist(ra) == Gist(rb)
    ensures ra.Success? && rb.Success? ==> Gist(ra) == Gist(rb)
  {
    RealInMember(a);
    RealInMember(b);
    forall i ensures IsBest(i, a) <==> IsBest(i, b) {
    }
    if !IsBest(ErrorImage, a) {
      if HasReal(a) {
        var v: nat, c: nat :| IsFirst(a, v, c) && Reports(a, a[v].crashes.value[c], ra);
        var w: nat, d: nat :| IsFirst(b, w, d) && Reports(b, b[w].crashes.value[d], rb);
        FirstIsMembers(a, v, c);
        FirstIsMembers(b, w, d);
        SameBest(a, ra, rb);
      } else {
        SameBest(a, ra, rb);
      }
    }
  }

  lemma SameBest(rs: seq<WorkerResult>, ra: Result<Verdict, Problem>, rb: Result<Verdict, Problem>)
    ensures ra.Success? && rb.Success? && ra.value.image.Some? && rb.value.image.Some? &&
            IsBest(ra.value.image.value, rs) && IsBest(rb.value.image.value, rs)
            ==> ra.value.image == rb.value.image
  {
  }

  ghost predicate OrderFree(rs: seq<WorkerResult>) {
    forall a, b, ra, rb ::
      multiset(a) == multiset(rs) == multiset(b) && IsMachineVerdict(a, ra) && IsMachineVerdict(b, rb) ==>
          Gist(ra) == Gist(rb)
  }

  lemma PermutedMachines(a: seq<WorkerResult>, b: seq<WorkerResult>)
    requires multiset(a) == multiset(b)
    ensures SameMachines(a, b)
  {
    forall r ensures r in a <==> r in b {
      assert r in a <==> r in multiset(a);
      assert r in b <==> r in multiset(b);
    }
  }

  lemma MoveToFront(rs: seq<WorkerResult>, w: nat, c: nat) returns (a: seq<WorkerResult>)
    requires w < |rs| && FirstAt(rs[w], c)
    ensures multiset(a) == multiset(rs) && IsFirst(a, 0, c) && a[0] == rs[w]
  {
    a := [rs[w]] + rs[..w] + rs[w + 1..];
    assert rs == rs[..w] + [rs[w]] + rs[w + 1..];
    forall v, d | 0 <= v && 0 <= d && IsReal(a, v, d) ensures 0 < v || c <= d {
      if v == 0 { assert RealAt(rs[w], d); }
    }
    assert RealAt(rs[w], c) && IsReal(a, 0, c);
  }

  lemma MixedDependsOnOrder(rs: seq<WorkerResult>, image: Image)
    requires Mixed(rs) && image != ErrorImage && IsBest(image, rs)
    ensures !OrderFree(rs)
  {
    var g :| g in rs && Good(g);
    var b :| b in rs && Bad(b);
    var w :| 0 <= w < |rs| && rs[w] == g;
    var v :| 0 <= v < |rs| && rs[v] == b;
    var c: nat :| FirstAt(g, c) && g.crashes.value[c].incidents != [];
    var d: nat :| FirstAt(b, d) && b.crashes.value[d].incidents == [];
    var x := MoveToFront(rs, w, c);
    var y := MoveToFront(rs, v, d);
    var good: Result<Verdict, Problem> :=
      Success(Verdict(Reproduced, Some(image), Some(g.crashes.value[c].title), Some(g.crashes.value[c].incidents[0])));
    var bad: Result<Verdict, Problem> := Failure(NoIncident);
    FrontDecides(rs, x, c, image, good);
    FrontDecides(rs, y, d, image, bad);
    assert Gist(good) != Gist(bad);
  }

  lemma FrontDecides(rs: seq<WorkerResult>, a: seq<WorkerResult>, c: nat, image: Image, r: Result<Verdict, Problem>)
    requires multiset(a) == multiset(rs) && image != ErrorImage && IsBest(image, rs) && IsFirst(a, 0, c)
    requires var crash := a[0].crashes.value[c];
             r == if crash.incidents == [] then Failure(NoIncident)
                  else Success(Verdict(Reproduced, Some(image), Some(crash.title), Some(crash.incidents[0])))
    ensures IsMachineVerdict(a, r)
  {
    PermutedMachines(a, rs);
    assert IsBest(image, a);
    BestIsUnique(a, image, ErrorImage);
    assert IsReal(a, 0, c);
    assert Reports(a, a[0].crashes.value[c], r);
  }

  /** Reordering the machines never changes the image or the evaluation of a job that gets a verdict.
      What it can change is whether it gets one, exactly when a usable image meets machines whose first
      real crashes differ in having an incident. */
  lemma OrderFreeIff(rs: seq<WorkerResult>)
    ensures OrderFree(rs) <==> IsBest(ErrorImage, rs) || !Mixed(rs)
  {
    if IsBest(ErrorImage, rs) || !Mixed(rs) {
      forall a, b, ra, rb | multiset(a) == multiset(rs) == multiset(b) && IsMachineVerdict(a, ra)
          && IsMachineVerdict(b, rb)
        ensures Gist(ra) == Gist(rb)
      {
        PermutedMachines(a, rs);
        PermutedMachines(a, b);
        assert IsBest(ErrorImage, a) || !Mixed(a);
        MachinesDecide(a, b, ra, rb);
      }
    } else {
      var image := BestOf(rs);
      BestIsUnique(rs, image, ErrorImage);
      MixedDependsOnOrder(rs, image);
    }
  }

  lemma {:induction false} BestOf(rs: seq<WorkerResult>) returns (image: Image)
    ensures IsBest(image, rs)
  {
    if rs == [] {
      image := ErrorImage;
    } else {
      var before := BestOf(rs[..|rs| - 1]);
      var last := rs[|rs| - 1];
      image := if Rank(before) < Rank(last.ability) then last.ability else before;
      assert last in rs && rs == rs[..|rs| - 1] + [last];
    }
  }

  function Level(e: Evaluation): nat {
    match e case ImageError => 1 case NotReproduced => 2 case Reproduced => 3 case _ => 0
  }

  /** More machines, wherever they are put among the others, never lower the verdict. */
  lemma MoreMachinesNeverLower(a: seq<WorkerResult>, b: seq<WorkerResult>,
                               ra: Result<Verdict, Problem>, rb: Result<Verdict, Problem>)
    requires multiset(a) <= multiset(b)
    requires IsMachineVerdict(a, ra) && IsMachineVerdict(b, rb) && ra.Success? && rb.Success?
    ensures Level(ra.value.evaluation) <= Level(rb.value.evaluation)
    ensures Rank(ra.value.image.value) <= Rank(rb.value.image.value)
  {
    forall r | r in a ensures r in b {
      assert r in multiset(a);
    }
    RealInMember(a);
    RealInMember(b);
    if IsBest(ErrorImage, b) { assert IsBest(ErrorImage, a); }
  }
}
