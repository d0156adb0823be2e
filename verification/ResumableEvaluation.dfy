/** An evaluation that can be stopped and started again: every run skips the instances that already have
    a line in the output file and appends one line per instance it finishes, in any order. */
module ResumableEvaluation {
  import opened Prelude

  /** The error column: what the process function put there, or why the instance was given up. */
  datatype Trouble = Reported(text: string) | Timeout | RetriesReached(retries: nat, message: string)

  datatype Output = Output(id: string, error: Option<Trouble>)

  function IdsOf(file: seq<Output>): seq<string> {
    if file == [] then [] else IdsOf(file[..|file| - 1]) + [file[|file| - 1].id]
  }

  lemma {:induction false} IdsOfLength(file: seq<Output>)
    ensures |IdsOf(file)| == |file| && forall i :: 0 <= i < |file| ==> IdsOf(file)[i] == file[i].id
  {
    if file != [] { IdsOfLength(file[..|file| - 1]); }
  }

  // ---------------------------------------------------------------- selecting instances

  /** The random sample and the caller's filter are functions of the rows: the seed is fixed. */
  datatype Selection = Selection(ids: Option<seq<string>>, skip: Option<int>, limit: int,
                                 sample: (seq<string>, nat) -> seq<string>, filter: seq<string> -> seq<string>)

  function Keep(rows: seq<string>, ids: seq<string>): seq<string> {
    if rows == [] then []
    else Keep(rows[..|rows| - 1], ids) + if rows[|rows| - 1] in ids then [rows[|rows| - 1]] else []
  }

  function Sampled(rows: seq<string>, s: Selection): seq<string> {
    if s.limit > 0 then s.sample(rows, if s.limit < |rows| then s.limit else |rows|) else rows
  }

  /** Explicit ids win over skipping, and nothing is sampled from them; skipping wins over plain sampling. */
  function Select(rows: seq<string>, s: Selection): seq<string> {
    s.filter(
      if s.ids.Some? && s.ids.value != [] then Keep(rows, s.ids.value)
      else if s.skip.Some? && s.skip.value > 0
      then Sampled(rows[if s.skip.value < |rows| then s.skip.value else |rows|..], s)
      else Sampled(rows, s))
  }

  /** The places before `n` of the rows that are wanted. */
  function Places(rows: seq<string>, wanted: set<string>, n: nat): set<nat>
    requires n <= |rows|
  {
    set i: nat | i < n && rows[i] in wanted
  }

  /** `kept` are the wanted rows in their order: each stands behind as many as are wanted before it. */
  ghost predicate AreWanted(rows: seq<string>, kept: seq<string>, wanted: set<string>) {
    && |kept| == |Places(rows, wanted, |rows|)|
    && forall j :: 0 <= j < |rows| && rows[j] in wanted ==> KeepsRow(rows, kept, wanted, j)
  }

  predicate KeepsRow(rows: seq<string>, kept: seq<string>, wanted: set<string>, j: nat)
    requires j < |rows|
  {
    var rank := |Places(rows, wanted, j)|;
    rank < |kept| && kept[rank] == rows[j]
  }

  lemma NextPlace(rows: seq<string>, wanted: set<string>, n: nat)
    requires n < |rows|
    ensures Places(rows, wanted, n + 1) == Places(rows, wanted, n) + if rows[n] in wanted then {n} else {}
    ensures n !in Places(rows, wanted, n)
  {
  }

  lemma SamePlaces(rows: seq<string>, wanted: set<string>, n: nat, k: nat)
    requires k <= n <= |rows|
    ensures Places(rows[..n], wanted, k) == Places(rows, wanted, k)
  {
  }

  /** One more row, kept exactly if it is wanted. */
  lemma OneMoreWanted(rows: seq<string>, kept: seq<string>, kept': seq<string>, wanted: set<string>)
    requires rows != [] && AreWanted(rows[..|rows| - 1], kept, wanted)
    requires rows[|rows| - 1] in wanted ==> kept' == kept + [rows[|rows| - 1]]
    requires rows[|rows| - 1] !in wanted ==> kept' == kept
    ensures AreWanted(rows, kept', wanted)
  {
    var n := |rows| - 1;
    NextPlace(rows, wanted, n);
    SamePlaces(rows, wanted, n, n);
    forall j | 0 <= j < |rows| && rows[j] in wanted ensures KeepsRow(rows, kept', wanted, j) {
      if j < n {
        SamePlaces(rows, wanted, n, j);
        assert KeepsRow(rows[..n], kept, wanted, j);
      }
    }
  }

  /** Explicit ids keep exactly the rows with one of them, in the order of the rows. */
  lemma {:induction false} KeepPicks(rows: seq<string>, ids: seq<string>)
    ensures AreWanted(rows, Keep(rows, ids), set id | id in ids)
  {
    if rows != [] {
      KeepPicks(rows[..|rows| - 1], ids);
      OneMoreWanted(rows, Keep(rows[..|rows| - 1], ids), Keep(rows, ids), set id | id in ids);
    }
  }

  /** The rows to choose from: those with one of the ids if any are given; otherwise all but the first ones
      to be skipped. */
  ghost predicate IsBase(rows: seq<string>, s: Selection, base: seq<string>) {
    if s.ids.Some? && |s.ids.value| > 0
    then AreWanted(rows, base, set id | id in s.ids.value)
    else
      var skipped := if s.skip == None || s.skip.value < 0 then 0 else s.skip.value;
      && |base| == (if skipped > |rows| then 0 else |rows| - skipped)
      && forall i :: 0 <= i < |base| ==> base[i] == rows[skipped + i]
  }

  /** What is sampled from them: as many as the limit says, or all; nothing is sampled from explicit ids. */
  predicate IsSampled(s: Selection, base: seq<string>, sampled: seq<string>) {
    if s.limit <= 0 || (s.ids.Some? && |s.ids.value| > 0) then sampled == base
    else if s.limit < |base| then sampled == s.sample(base, s.limit)
    else sampled == s.sample(base, |base|)
  }

  ghost predicate IsSelection(rows: seq<string>, s: Selection, base: seq<string>, sampled: seq<string>) {
    IsBase(rows, s, base) && IsSampled(s, base, sampled)
  }

  /** The selected instances, whichever options are given. */
  lemma SelectMeaning(rows: seq<string>, s: Selection)
    ensures exists base, sampled :: IsSelection(rows, s, base, sampled) && Select(rows, s) == s.filter(sampled)
  {
    if s.ids.Some? && s.ids.value != [] {
      KeepPicks(rows, s.ids.value);
      assert IsSelection(rows, s, Keep(rows, s.ids.value), Keep(rows, s.ids.value));
    } else {
      var skipped := if s.skip.Some? && s.skip.value > 0 then s.skip.value else 0;
      var base := rows[if skipped < |rows| then skipped else |rows|..];
      assert skipped == 0 ==> base == rows;
      assert IsSelection(rows, s, base, Sampled(base, s));
    }
  }

  ghost predicate KeepsDistinct(s: Selection) {
    && (forall rows, n: nat :: Distinct(rows) ==> Distinct(s.sample(rows, n)))
    && (forall rows :: Distinct(rows) ==> Distinct(s.filter(rows)))
  }

  lemma {:induction false} KeepIsDistinct(rows: seq<string>, ids: seq<string>)
    requires Distinct(rows)
    ensures Distinct(Keep(rows, ids)) && forall r :: r in Keep(rows, ids) ==> r in rows
  {
    if rows != [] {
      KeepIsDistinct(rows[..|rows| - 1], ids);
      var kept := Keep(rows[..|rows| - 1], ids);
      forall i | 0 <= i < |kept| ensures kept[i] != rows[|rows| - 1] {
        assert kept[i] in kept;
      }
    }
  }

  lemma SelectIsDistinct(rows: seq<string>, s: Selection)
    requires Distinct(rows) && KeepsDistinct(s)
    ensures Distinct(Select(rows, s))
  {
    if s.ids.Some? && s.ids.value != [] { KeepIsDistinct(rows, s.ids.value); }
  }

  // ---------------------------------------------------------------- any number of runs

  /** The selected instances without a line in the file. */
  function Todo(selected: seq<string>, file: seq<Output>): seq<string> {
    if selected == [] then []
    else
      Todo(selected[..|selected| - 1], file) +
      if selected[|selected| - 1] in IdsOf(file) then [] else [selected[|selected| - 1]]
  }

  predicate HasLine(file: seq<Output>, id: string) {
    exists l :: 0 <= l < |file| && file[l].id == id
  }

  lemma LinesHaveIds(file: seq<Output>, id: string)
    ensures HasLine(file, id) <==> id in IdsOf(file)
  {
    IdsOfLength(file);
    if HasLine(file, id) {
      var l :| 0 <= l < |file| && file[l].id == id;
      assert IdsOf(file)[l] == id;
    }
  }

  /** The instances left are the selected ones without a line, in their order. */
  lemma {:induction false} TodoPicks(selected: seq<string>, file: seq<Output>, wanted: set<string>)
    requires forall id :: id in selected ==> (id in wanted <==> !HasLine(file, id))
    ensures AreWanted(selected, Todo(selected, file), wanted)
  {
    if selected != [] {
      var n := |selected| - 1;
      TodoPicks(selected[..n], file, wanted);
      assert selected[n] in selected;
      LinesHaveIds(file, selected[n]);
      OneMoreWanted(selected, Todo(selected[..n], file), Todo(selected, file), wanted);
    }
  }

  /** A run appends lines for some instances to do, or for all of them if it completes. */
  ghost predicate RunStep(file: seq<Output>, file': seq<Output>, todo: seq<string>, complete: bool) {
    && file <= file'
    && multiset(IdsOf(file'[|file|..])) <= multiset(todo)
    && (complete ==> multiset(IdsOf(file'[|file|..])) == multiset(todo))
  }

  /** Run `i` takes the output from `files[i]` to `files[i + 1]`. */
  ghost predicate IsHistory(selected: seq<string>, files: seq<seq<Output>>, complete: seq<bool>) {
    && |files| == |complete| + 1
    && forall i :: 0 <= i < |complete| ==> IsRun(selected, files, complete, i)
  }

  ghost predicate IsRun(selected: seq<string>, files: seq<seq<Output>>, complete: seq<bool>, i: nat)
    requires i < |complete| < |files|
  {
    RunStep(files[i], files[i + 1], Todo(selected, files[i]), complete[i])
  }

  function Lines(file: seq<Output>, id: string): nat { multiset(IdsOf(file))[id] }

  ghost predicate AllOnce(selected: seq<string>, file: seq<Output>) {
    forall id :: id in selected ==> Lines(file, id) == 1
  }

  ghost predicate NoneTwice(file: seq<Output>) {
    forall id :: Lines(file, id) <= 1
  }

  lemma {:induction false} IdsOfAppend(a: seq<Output>, b: seq<Output>)
    ensures IdsOf(a + b) == IdsOf(a) + IdsOf(b)
  {
    if b == [] {
      assert a + b == a;
    } else {
      IdsOfAppend(a, b[..|b| - 1]);
      assert (a + b)[..|a + b| - 1] == a + b[..|b| - 1];
    }
  }

  lemma {:induction false} TodoCount(selected: seq<string>, file: seq<Output>, id: string)
    ensures multiset(Todo(selected, file))[id] == if id in IdsOf(file) then 0 else multiset(selected)[id]
  {
    if selected != [] {
      TodoCount(selected[..|selected| - 1], file, id);
      assert selected == selected[..|selected| - 1] + [selected[|selected| - 1]];
    }
  }

  lemma {:induction false} DistinctCount(s: seq<string>, id: string)
    requires Distinct(s)
    ensures multiset(s)[id] == if id in s then 1 else 0
  {
    if s != [] {
      DistinctCount(s[..|s| - 1], id);
      assert s == s[..|s| - 1] + [s[|s| - 1]];
    }
  }

  lemma LinesAdd(file: seq<Output>, file': seq<Output>, id: string)
    requires file <= file'
    ensures Lines(file', id) == Lines(file, id) + Lines(file'[|file|..], id)
  {
    assert file' == file + file'[|file|..];
    IdsOfAppend(file, file'[|file|..]);
  }

  lemma RunLines(selected: seq<string>, file: seq<Output>, file': seq<Output>, complete: bool, id: string)
    requires Distinct(selected) && RunStep(file, file', Todo(selected, file), complete)
    ensures Lines(file, id) > 0 ==> Lines(file', id) == Lines(file, id)
    ensures Lines(file, id) == 0 ==> Lines(file', id) <= 1
    ensures complete && id in selected ==> Lines(file', id) > 0
    ensures id !in selected ==> Lines(file', id) == Lines(file, id)
  {
    LinesAdd(file, file', id);
    TodoCount(selected, file, id);
    DistinctCount(selected, id);
    assert Lines(file'[|file|..], id) <= multiset(Todo(selected, file))[id];
  }

  lemma RunKeepsNoneTwice(selected: seq<string>, file: seq<Output>, file': seq<Output>, complete: bool)
    requires Distinct(selected) && RunStep(file, file', Todo(selected, file), complete) && NoneTwice(file)
    ensures NoneTwice(file')
    ensures complete ==> AllOnce(selected, file')
  {
    forall id ensures Lines(file', id) <= 1 && (complete && id in selected ==> Lines(file', id) == 1) {
      RunLines(selected, file, file', complete, id);
      assert Lines(file, id) <= 1;
    }
  }

  lemma {:induction false} NeverTwice(selected: seq<string>, files: seq<seq<Output>>, complete: seq<bool>, k: nat)
    requires Distinct(selected) && IsHistory(selected, files, complete) && NoneTwice(files[0]) && k < |files|
    ensures NoneTwice(files[k])
  {
    if k > 0 {
      NeverTwice(selected, files, complete, k - 1);
      assert IsRun(selected, files, complete, k - 1);
      RunKeepsNoneTwice(selected, files[k - 1], files[k], complete[k - 1]);
    }
  }

  lemma {:induction false} NothingLeft(selected: seq<string>, file: seq<Output>)
    requires AllOnce(selected, file)
    ensures Todo(selected, file) == []
  {
    if selected != [] {
      var id := selected[|selected| - 1];
      assert id in selected && Lines(file, id) == 1;
      NothingLeft(selected[..|selected| - 1], file);
    }
  }

  lemma RunAfterCompletion(selected: seq<string>, file: seq<Output>, file': seq<Output>, complete: bool)
    requires RunStep(file, file', Todo(selected, file), complete)
    requires AllOnce(selected, file)
    ensures file' == file
  {
    NothingLeft(selected, file);
    var added := file'[|file|..];
    IdsOfLength(added);
    assert |multiset(IdsOf(added))| == 0;
    assert file' == file + added;
  }

  lemma CompletedRun(selected: seq<string>, files: seq<seq<Output>>, complete: seq<bool>, k: nat)
    requires Distinct(selected) && IsHistory(selected, files, complete) && NoneTwice(files[0])
    requires k < |complete| && complete[k]
    ensures AllOnce(selected, files[k + 1])
  {
    NeverTwice(selected, files, complete, k);
    assert IsRun(selected, files, complete, k);
    RunKeepsNoneTwice(selected, files[k], files[k + 1], true);
  }

  lemma {:induction false} NothingAfter(selected: seq<string>, files: seq<seq<Output>>, complete: seq<bool>, k: nat,
                                        j: nat)
    requires IsHistory(selected, files, complete) && k <= j < |files| && AllOnce(selected, files[k])
    ensures files[j] == files[k]
    decreases j
  {
    if k < j {
      NothingAfter(selected, files, complete, k, j - 1);
      assert IsRun(selected, files, complete, j - 1);
      RunAfterCompletion(selected, files[j - 1], files[j], complete[j - 1]);
    }
  }

  /** Whatever runs were cut off before it and in whatever order results arrived, after a completed run
      every selected instance has exactly one line; later runs write nothing. */
  lemma ResumeIsExactlyOnce(selected: seq<string>, files: seq<seq<Output>>, complete: seq<bool>, k: nat, j: nat)
    requires Distinct(selected) && IsHistory(selected, files, complete) && NoneTwice(files[0])
    requires k < j < |files| && complete[k]
    ensures AllOnce(selected, files[j]) && files[j] == files[k + 1]
  {
    CompletedRun(selected, files, complete, k);
    NothingAfter(selected, files, complete, k + 1, j);
  }

  ghost predicate ExactlyOnce(selected: seq<string>) {
    forall files: seq<seq<Output>>, complete, id ::
      IsHistory(selected, files, complete) && files[0] == [] && |complete| > 0 && complete[|complete| - 1]
          && id in selected
      ==> Lines(files[|complete|], id) == 1
  }

  function Outputs(ids: seq<string>): seq<Output> {
    if ids == [] then [] else Outputs(ids[..|ids| - 1]) + [Output(ids[|ids| - 1], None)]
  }

  lemma {:induction false} OutputsIds(ids: seq<string>)
    ensures IdsOf(Outputs(ids)) == ids
  {
    if ids != [] { OutputsIds(ids[..|ids| - 1]); }
  }

  lemma {:induction false} FreshTodo(selected: seq<string>)
    ensures Todo(selected, []) == selected
  {
    if selected != [] { FreshTodo(selected[..|selected| - 1]); }
  }

  lemma RepeatedIdIsWrittenTwice(selected: seq<string>, i: nat, j: nat)
    requires i < j < |selected| && selected[i] == selected[j]
    ensures !ExactlyOnce(selected)
  {
    var files, complete := [[], Outputs(selected)], [true];
    OutputsIds(selected);
    FreshTodo(selected);
    assert files[1][|files[0]|..] == Outputs(selected);
    assert IsRun(selected, files, complete, 0);
    CountTwice(selected, i, j);
    assert files[0] == [] && complete[|complete| - 1] && selected[i] in selected;
    assert Lines(files[|complete|], selected[i]) != 1;
  }

  /** The promise needs the selected ids to differ, and nothing else. */
  lemma ExactlyOnceIff(selected: seq<string>)
    ensures ExactlyOnce(selected) <==> Distinct(selected)
  {
    if Distinct(selected) {
      forall files: seq<seq<Output>>, complete: seq<bool>, id |
        IsHistory(selected, files, complete) && files[0] == [] && |complete| > 0 && complete[|complete| - 1]
            && id in selected
        ensures Lines(files[|complete|], id) == 1
      {
        CompletedRun(selected, files, complete, |complete| - 1);
      }
    } else {
      var i, j :| 0 <= i < j < |selected| && selected[i] == selected[j];
      RepeatedIdIsWrittenTwice(selected, i, j);
    }
  }

  // ---------------------------------------------------------------- one instance

  datatype Attempt = Returns(output: Output) | TimesOut | Errors(fatal: bool, message: string)

  /** What one call of the process function does, given the attempt and the count of fatal runtime
      failures it is told about. */
  type Process = (nat, nat) -> Attempt

  function FatalBefore(process: Process, k: nat): nat {
    if k == 0 then 0
    else
      var before := FatalBefore(process, k - 1);
      match process(k - 1, before)
      case Errors(true, _) => before + 1
      case _ => before
  }

  function AttemptAt(process: Process, k: nat): Attempt {
    process(k, FatalBefore(process, k))
  }

  predicate IsFatalAt(process: Process, j: nat) {
    AttemptAt(process, j).Errors? && AttemptAt(process, j).fatal
  }

  /** The attempts before the `k`-th that raise a fatal error. */
  function FatalAttempts(process: Process, k: nat): set<nat> {
    set j: nat | j < k && IsFatalAt(process, j)
  }

  lemma OneMoreAttempt(process: Process, k: nat)
    ensures |FatalAttempts(process, k + 1)| == |FatalAttempts(process, k)| + if IsFatalAt(process, k) then 1 else 0
  {
    if IsFatalAt(process, k) {
      assert FatalAttempts(process, k + 1) == FatalAttempts(process, k) + {k};
    } else {
      assert FatalAttempts(process, k + 1) == FatalAttempts(process, k);
    }
  }

  /** The count passed on is their number. */
  lemma {:induction false} FatalCount(process: Process, k: nat)
    ensures FatalBefore(process, k) == |FatalAttempts(process, k)|
  {
    if k == 0 {
      assert FatalAttempts(process, 0) == {};
    } else {
      FatalCount(process, k - 1);
      OneMoreAttempt(process, k - 1);
    }
  }

  function TimeoutOutput(id: string): Output { Output(id, Some(Timeout)) }

  function RetriesOutput(id: string, retries: nat, message: string): Output {
    Output(id, Some(RetriesReached(retries, message)))
  }

  /** The number of calls that a run of attempts makes: it ends with the first that raises no error, or
      with the last allowed one. */
  predicate Ends(process: Process, maxRetries: nat, calls: nat) {
    && 1 <= calls <= maxRetries + 1
    && (forall j :: 0 <= j < calls - 1 ==> AttemptAt(process, j).Errors?)
    && (AttemptAt(process, calls - 1).Errors? ==> calls == maxRetries + 1)
  }

  function Conclusion(id: string, last: Attempt, maxRetries: nat, skipErrors: bool): Result<Output, string> {
    match last
    case Returns(o) => Success(o)
    case TimesOut => Success(TimeoutOutput(id))
    case Errors(_, message) => if skipErrors then Success(RetriesOutput(id, maxRetries, message)) else Failure(id)
  }

  /** Every allowed attempt raises, and the failure is not to be skipped. */
  predicate Fails(process: Process, maxRetries: nat, skipErrors: bool) {
    !skipErrors && forall j :: 0 <= j <= maxRetries ==> AttemptAt(process, j).Errors?
  }

  /** The line is what some run of attempts on its instance concludes with. */
  ghost predicate IsResult(line: Output, process: Process, maxRetries: nat, skipErrors: bool) {
    exists calls: nat :: Ends(process, maxRetries, calls) && EndsWith(line, process, maxRetries, skipErrors, calls)
  }

  ghost predicate Labelled(id: string, process: Process) {
    forall a, f :: process(a, f).Returns? ==> process(a, f).output.id == id
  }

  lemma ConclusionIsResult(id: string, process: Process, maxRetries: nat, skipErrors: bool, calls: nat, line: Output)
    requires Labelled(id, process) && Ends(process, maxRetries, calls)
    requires Conclusion(id, AttemptAt(process, calls - 1), maxRetries, skipErrors) == Success(line)
    ensures line.id == id && IsResult(line, process, maxRetries, skipErrors)
  {
    assert EndsWith(line, process, maxRetries, skipErrors, calls);
  }

  ghost predicate AllResults(lines: seq<Output>, process: string -> Process, maxRetries: nat, skipErrors: bool) {
    forall line :: line in lines ==> IsResult(line, process(line.id), maxRetries, skipErrors)
  }

  predicate EndsWith(line: Output, process: Process, maxRetries: nat, skipErrors: bool, calls: nat) {
    calls > 0 && Conclusion(line.id, AttemptAt(process, calls - 1), maxRetries, skipErrors) == Success(line)
  }

  // ---------------------------------------------------------------- the evaluation

  predicate Within(order: seq<nat>, n: nat) {
    forall k :: 0 <= k < |order| ==> order[k] < n
  }

  /** The instances whose results arrive, given by their rows. */
  function Arrived(todo: seq<string>, order: seq<nat>): seq<string>
    requires Within(order, |todo|)
  {
    seq(|order|, k requires 0 <= k < |order| => todo[order[k]])
  }

  lemma Without(todo: seq<string>, order: seq<nat>, p: nat)
    requires Distinct(order) && Within(order, |todo|) && p < |order| && order[p] == |todo| - 1
    ensures var rest := order[..p] + order[p + 1..];
            && Distinct(rest) && Within(rest, |todo| - 1)
            && multiset(Arrived(todo, order))
                == multiset(Arrived(todo[..|todo| - 1], rest)) + multiset{todo[|todo| - 1]}
  {
    var rest := order[..p] + order[p + 1..];
    forall k | 0 <= k < |rest| ensures rest[k] == order[if k < p then k else k + 1] != order[p] {
    }
    var all, left := Arrived(todo, order), Arrived(todo[..|todo| - 1], rest);
    assert left == all[..p] + all[p + 1..];
    assert all == all[..p] + [all[p]] + all[p + 1..];
  }

  lemma {:induction false} ArrivedWithin(todo: seq<string>, order: seq<nat>)
    requires Distinct(order) && Within(order, |todo|)
    ensures multiset(Arrived(todo, order)) <= multiset(todo)
    decreases |todo|
  {
    if order != [] {
      assert order[0] < |todo|;
      var last := |todo| - 1;
      assert todo == todo[..last] + [todo[last]];
      if p: nat :| 0 <= p < |order| && order[p] == last {
        Without(todo, order, p);
        ArrivedWithin(todo[..last], order[..p] + order[p + 1..]);
      } else {
        ArrivedWithin(todo[..last], order);
        assert Arrived(todo[..last], order) == Arrived(todo, order);
      }
    }
  }

  lemma SameSize(a: multiset<string>, b: multiset<string>)
    requires a <= b && |a| == |b|
    ensures a == b
  {
    assert b == a + (b - a);
    assert |b - a| == 0;
  }

  lemma ArrivedCount(todo: seq<string>, order: seq<nat>, k: nat)
    requires Distinct(order) && Within(order, |todo|) && k <= |order|
    ensures Within(order[..k], |todo|)
    ensures multiset(Arrived(todo, order[..k])) <= multiset(todo)
    ensures k == |todo| ==> multiset(Arrived(todo, order[..k])) == multiset(todo)
  {
    ArrivedWithin(todo, order[..k]);
    if k == |todo| { SameSize(multiset(Arrived(todo, order[..k])), multiset(todo)); }
  }

  ghost predicate NoFailure(todo: seq<string>, process: string -> Process, order: seq<nat>, maxRetries: nat,
                            skipErrors: bool, k: nat)
    requires Within(order, |todo|)
  {
    k <= |order| && forall j :: 0 <= j < k ==> !Fails(process(todo[order[j]]), maxRetries, skipErrors)
  }

  /** The first failing instance in order of arrival is at `k`, or there is none up to the end. */
  ghost predicate FirstFailure(todo: seq<string>, process: string -> Process, order: seq<nat>, maxRetries: nat,
                               skipErrors: bool, k: nat)
    requires Within(order, |todo|)
  {
    && NoFailure(todo, process, order, maxRetries, skipErrors, k)
    && (k < |order| ==> Fails(process(todo[order[k]]), maxRetries, skipErrors))
  }

  class Evaluation {
    var output: seq<Output>

    constructor (output: seq<Output>)
      ensures this.output == output
    {
      this.output := output;
    }

    method PrepareDataset(rows: seq<string>, s: Selection) returns (todo: seq<string>)
      ensures todo == Todo(Select(rows, s), output)
    {
      var finished: set<string> := {};
      for i := 0 to |output|
        invariant finished == set id | id in IdsOf(output[..i])
      {
        finished := finished + {output[i].id};
        assert output[..i + 1][..i] == output[..i];
      }
      assert output[..|output|] == output;
      var selected := Select(rows, s);
      todo := [];
      for i := 0 to |selected|
        invariant todo == Todo(selected[..i], output)
      {
        assert selected[..i + 1][..i] == selected[..i];
        if selected[i] !in finished {
          todo := todo + [selected[i]];
        }
      }
      assert selected[..|selected|] == selected;
    }

    /** Runs the process function until it returns or times out, at most `maxRetries + 1` times. */
    static method ProcessInstance(id: string, process: Process, maxRetries: nat, skipErrors: bool)
      returns (result: Result<Output, string>, calls: nat)
      ensures Ends(process, maxRetries, calls)
      ensures result == Conclusion(id, AttemptAt(process, calls - 1), maxRetries, skipErrors)
      ensures match AttemptAt(process, calls - 1)
              case Returns(o) => result == Success(o)
              case TimesOut => result == Success(Output(id, Some(Timeout)))
              case Errors(_, message) =>
                result == (if skipErrors then Success(Output(id, Some(RetriesReached(maxRetries, message))))
                           else Failure(id))
      ensures result.Failure? <==> Fails(process, maxRetries, skipErrors)
    {
      var failures, attempt := 0, 0;
      while true
        invariant attempt <= maxRetries
        invariant failures == FatalBefore(process, attempt)
        invariant forall j :: 0 <= j < attempt ==> AttemptAt(process, j).Errors?
        decreases maxRetries - attempt
      {
        match process(attempt, failures)
        case Returns(o) =>
          return Success(o), attempt + 1;
        case TimesOut =>
          return Success(TimeoutOutput(id)), attempt + 1;
        case Errors(fatal, message) =>
          if attempt == maxRetries {
            if skipErrors {
              return Success(RetriesOutput(id, maxRetries, message)), attempt + 1;
            } else {
              return Failure(id), attempt + 1;
            }
          }
          if fatal {
            failures := failures + 1;
          }
          attempt := attempt + 1;
      }
    }

    /** One run.  `order` is the order in which results arrive: that of the rows with one worker, any
        with several; it ends early if the run is interrupted.  A failed instance ends the run. */
    method RunEvaluation(todo: seq<string>, process: string -> Process, order: seq<nat>, maxRetries: nat,
                         skipErrors: bool)
      returns (complete: bool, ghost written: nat)
      requires Distinct(order) && Within(order, |todo|)
      requires forall id :: Labelled(id, process(id))
      modifies this
      ensures RunStep(old(output), output, todo, complete)
      ensures AllResults(output[|old(output)|..], process, maxRetries, skipErrors)
      ensures FirstFailure(todo, process, order, maxRetries, skipErrors, written)
      ensures IdsOf(output[|old(output)|..]) == Arrived(todo, order[..written])
      ensures complete <==> written == |order| == |todo|
    {
      ghost var added: seq<Output> := [];
      for k := 0 to |order|
        invariant output == old(output) + added
        invariant IdsOf(added) == Arrived(todo, order[..k])
        invariant AllResults(added, process, maxRetries, skipErrors)
        invariant NoFailure(todo, process, order, maxRetries, skipErrors, k)
      {
        var id := todo[order[k]];
        var result, calls := ProcessInstance(id, process(id), maxRetries, skipErrors);
        if result.Failure? {
          ArrivedCount(todo, order, k);
          assert output[|old(output)|..] == added;
          complete, written := false, k;
          return;
        }
        ConclusionIsResult(id, process(id), maxRetries, skipErrors, calls, result.value);
        output := output + [result.value];
        assert (added + [result.value])[..|added|] == added;
        added := added + [result.value];
        assert Arrived(todo, order[..k + 1]) == Arrived(todo, order[..k]) + [id];
      }
      ArrivedCount(todo, order, |order|);
      assert order[..|order|] == order;
      assert output[|old(output)|..] == added;
      complete, written := |order| == |todo|, |order|;
    }
  }
}
