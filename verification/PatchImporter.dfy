/** Importing a batch of patches, one task per bug.  Tasks run side by side, so the order in which rows
    reach the table says nothing; each row's added time, computed beforehand from prefix sums, does. */
module PatchImporter {
  import opened Prelude

  datatype Patch = Patch(id: int, content: string)

  datatype Row = Row(bug: string, patch: Patch, time: int, config: nat, batch: nat)

  // ---------------------------------------------------------------- orders

  /** Bug ids compare character by character. */
  predicate Less(a: string, b: string) {
    b != [] && (a == [] || a[0] < b[0] || (a[0] == b[0] && Less(a[1..], b[1..])))
  }

  lemma {:induction false} LessIsTransitive(a: string, b: string, c: string)
    requires Less(a, b) && Less(b, c)
    ensures Less(a, c)
  {
    if a != [] && a[0] == b[0] == c[0] { LessIsTransitive(a[1..], b[1..], c[1..]); }
  }

  lemma {:induction false} LessIsTotal(a: string, b: string)
    ensures Less(a, b) || a == b || Less(b, a)
    ensures !(Less(a, b) && Less(b, a)) && !Less(a, a)
  {
    if a != [] {
      LessIsTotal(a[1..], a[1..]);
      if b != [] {
        LessIsTotal(a[1..], b[1..]);
        assert a == [a[0]] + a[1..] && b == [b[0]] + b[1..];
      }
    }
  }

  /** The stable sort by id. */
  function SortedById(s: seq<Patch>): seq<Patch> {
    if s == [] then [] else Insert(SortedById(s[..|s| - 1]), s[|s| - 1])
  }

  function Insert(s: seq<Patch>, p: Patch): seq<Patch> {
    if s != [] && p.id < s[|s| - 1].id then Insert(s[..|s| - 1], p) + [s[|s| - 1]] else s + [p]
  }

  predicate IsSorted(s: seq<Patch>) {
    forall i, j :: 0 <= i < j < |s| ==> s[i].id <= s[j].id
  }

  function WithId(s: seq<Patch>, id: int): seq<Patch> {
    if s == [] then [] else WithId(s[..|s| - 1], id) + if s[|s| - 1].id == id then [s[|s| - 1]] else []
  }

  lemma {:induction false} InsertSorts(s: seq<Patch>, p: Patch, high: int)
    requires IsSorted(s) && p.id <= high && forall i :: 0 <= i < |s| ==> s[i].id <= high
    ensures IsSorted(Insert(s, p)) && |Insert(s, p)| == |s| + 1
    ensures forall i :: 0 <= i < |Insert(s, p)| ==> Insert(s, p)[i].id <= high
  {
    if s != [] && p.id < s[|s| - 1].id {
      InsertSorts(s[..|s| - 1], p, s[|s| - 1].id);
    }
  }

  lemma {:induction false} InsertIsStable(s: seq<Patch>, p: Patch, id: int)
    ensures WithId(Insert(s, p), id) == WithId(s, id) + if p.id == id then [p] else []
  {
    if s != [] && p.id < s[|s| - 1].id {
      InsertIsStable(s[..|s| - 1], p, id);
      assert Insert(s, p)[..|Insert(s, p)| - 1] == Insert(s[..|s| - 1], p);
    } else {
      assert (s + [p])[..|s|] == s;
    }
  }

  /** Ascending by id, and patches with equal ids keep their order: together these fix the result. */
  lemma {:induction false} SortIsStable(s: seq<Patch>, id: int)
    ensures IsSorted(SortedById(s)) && |SortedById(s)| == |s|
    ensures WithId(SortedById(s), id) == WithId(s, id)
  {
    if s != [] {
      SortIsStable(s[..|s| - 1], id);
      var before, p := SortedById(s[..|s| - 1]), s[|s| - 1];
      InsertSorts(before, p, if before != [] && before[|before| - 1].id > p.id then before[|before| - 1].id else p.id);
      InsertIsStable(before, p, id);
    }
  }

  // ---------------------------------------------------------------- added times

  /** - `bugs`: the ids of the bugs in ascending order
      - `number`: what this import got from the configuration's counter of batches */
  datatype Batch = Batch(bugs: seq<string>, results: map<string, seq<Patch>>, start: int, config: nat, number: nat)

  ghost predicate IsBatch(m: Batch) {
    && (forall i, j :: 0 <= i < j < |m.bugs| ==> Less(m.bugs[i], m.bugs[j]))
    && (forall b :: b in m.bugs <==> b in m.results)
  }

  /** The patches of the `i`-th bug in the order in which its task imports them. */
  function Patches(m: Batch, i: nat): (ps: seq<Patch>)
    requires i < |m.bugs|
  {
    if m.bugs[i] in m.results then SortedById(m.results[m.bugs[i]]) else []
  }

  function Offset(m: Batch, i: nat): nat
    requires i <= |m.bugs|
  {
    if i == 0 then 0 else Offset(m, i - 1) + |Patches(m, i - 1)|
  }

  function Total(m: Batch): nat { Offset(m, |m.bugs|) }

  predicate IsSlot(m: Batch, i: nat, p: nat) {
    i < |m.bugs| && p < |Patches(m, i)|
  }

  function Time(m: Batch, i: nat, p: nat): int
    requires i < |m.bugs|
  {
    m.start + Offset(m, i) + p
  }

  lemma {:induction false} OffsetGrows(m: Batch, i: nat, j: nat)
    requires i < j <= |m.bugs|
    ensures Offset(m, i) + |Patches(m, i)| <= Offset(m, j)
  {
    if i + 1 < j { OffsetGrows(m, i, j - 1); }
  }

  /** Times compare as the pairs of bug id and position do, so no two slots share one. */
  lemma TimesFollowOrder(m: Batch, i: nat, p: nat, j: nat, q: nat)
    requires IsBatch(m) && IsSlot(m, i, p) && IsSlot(m, j, q)
    ensures Time(m, i, p) < Time(m, j, q) <==> Less(m.bugs[i], m.bugs[j]) || (m.bugs[i] == m.bugs[j] && p < q)
    ensures Time(m, i, p) == Time(m, j, q) <==> i == j && p == q
  {
    LessIsTotal(m.bugs[i], m.bugs[j]);
    if i < j { OffsetGrows(m, i, j); }
    if j < i { OffsetGrows(m, j, i); }
  }

  /** Every second from the start up to the number of patches is taken, and no other. */
  lemma TimesFillRange(m: Batch, t: int)
    ensures m.start <= t < m.start + Total(m) <==> exists i: nat, p: nat :: IsSlot(m, i, p) && Time(m, i, p) == t
  {
    if m.start <= t < m.start + Total(m) {
      var i, p := SlotOf(m, t - m.start, |m.bugs|);
      assert IsSlot(m, i, p) && Time(m, i, p) == t;
    }
    forall i: nat, p: nat | IsSlot(m, i, p) && Time(m, i, p) == t ensures m.start <= t < m.start + Total(m) {
      OffsetGrows(m, i, |m.bugs|);
    }
  }

  lemma {:induction false} SlotOf(m: Batch, t: nat, n: nat) returns (i: nat, p: nat)
    requires n <= |m.bugs| && t < Offset(m, n)
    ensures IsSlot(m, i, p) && Offset(m, i) + p == t
  {
    if t < Offset(m, n - 1) {
      i, p := SlotOf(m, t, n - 1);
    } else {
      i, p := n - 1, t - Offset(m, n - 1);
    }
  }

  // ---------------------------------------------------------------- tasks side by side

  function RowAt(m: Batch, i: nat, p: nat): Row
    requires IsSlot(m, i, p)
  {
    Row(m.bugs[i], Patches(m, i)[p], Time(m, i, p), m.config, m.number)
  }

  /** What becomes of one patch; an evaluation that cannot be recorded leaves the row but fails the patch. */
  datatype Fate = Imported | Unevaluated | Lost

  datatype Event =
    | Next(i: nat, fate: Fate)     // task `i` deals with its next patch
    | Foreign(row: Row)            // another batch or an agent run adds a row

  /** `next[i]` is how far task `i` has got. */
  datatype State = State(next: seq<nat>, rows: seq<Row>)

  /** Batches are numbered for each configuration separately. */
  predicate InBatch(m: Batch, r: Row) { r.config == m.config && r.batch == m.number }

  predicate Enabled(m: Batch, s: State, e: Event) {
    match e
    case Next(i, _) => i < |m.bugs| == |s.next| && s.next[i] < |Patches(m, i)|
    case Foreign(row) => row.config != m.config || row.batch != m.number
  }

  function Apply(m: Batch, s: State, e: Event): State
    requires Enabled(m, s, e)
  {
    match e
    case Next(i, fate) =>
      State(s.next[i := s.next[i] + 1], if fate == Lost then s.rows else s.rows + [RowAt(m, i, s.next[i])])
    case Foreign(row) => s.(rows := s.rows + [row])
  }

  ghost predicate IsRun(m: Batch, states: seq<State>, events: seq<Event>) {
    && IsBatch(m) && |states| == |events| + 1
    && states[0].next == seq(|m.bugs|, i => 0)
    && (forall r :: r in states[0].rows ==> !InBatch(m, r))
    && forall i :: 0 <= i < |events| ==> IsStep(m, states, events, i)
  }

  ghost predicate IsStep(m: Batch, states: seq<State>, events: seq<Event>, i: nat)
    requires i < |events| < |states|
  {
    Enabled(m, states[i], events[i]) && states[i + 1] == Apply(m, states[i], events[i])
  }

  predicate IsRowOf(m: Batch, r: Row, i: nat, p: nat) { IsSlot(m, i, p) && r == RowAt(m, i, p) }

  ghost predicate FromSlot(m: Batch, next: seq<nat>, r: Row) {
    exists i: nat, p: nat :: IsRowOf(m, r, i, p) && i < |next| && p < next[i]
  }

  /** Every row of the batch comes from a slot that its task has passed, and no slot has two. */
  ghost predicate Inv(m: Batch, s: State) {
    && |s.next| == |m.bugs|
    && (forall r :: r in s.rows && InBatch(m, r) ==> FromSlot(m, s.next, r))
    && (forall a, b :: 0 <= a < b < |s.rows| && InBatch(m, s.rows[a]) ==> s.rows[a] != s.rows[b])
  }

  lemma NextRowIsNew(m: Batch, s: State, i: nat)
    requires IsBatch(m) && Inv(m, s) && i < |m.bugs| && s.next[i] < |Patches(m, i)|
    ensures RowAt(m, i, s.next[i]) !in s.rows
  {
    var r := RowAt(m, i, s.next[i]);
    if r in s.rows {
      assert InBatch(m, r) && FromSlot(m, s.next, r);
      var j: nat, q: nat :| IsRowOf(m, r, j, q) && j < |s.next| && q < s.next[j];
      TimesFollowOrder(m, i, s.next[i], j, q);
    }
  }

  lemma StepKeepsInv(m: Batch, s: State, e: Event)
    requires IsBatch(m) && Inv(m, s) && Enabled(m, s, e)
    ensures Inv(m, Apply(m, s, e))
  {
    var s' := Apply(m, s, e);
    forall r | r in s.rows && InBatch(m, r) ensures FromSlot(m, s'.next, r) {
      assert FromSlot(m, s.next, r);
    }
    if e.Next? {
      assert IsRowOf(m, RowAt(m, e.i, s.next[e.i]), e.i, s.next[e.i]);
      NextRowIsNew(m, s, e.i);
    }
  }

  lemma {:induction false} RunKeepsInv(m: Batch, states: seq<State>, events: seq<Event>, k: nat)
    requires IsRun(m, states, events) && k < |states|
    ensures Inv(m, states[k])
  {
    if k > 0 {
      RunKeepsInv(m, states, events, k - 1);
      assert IsStep(m, states, events, k - 1);
      StepKeepsInv(m, states[k - 1], events[k - 1]);
    }
  }

  lemma SlotsDiffer(m: Batch, i: nat, p: nat, j: nat, q: nat)
    requires IsBatch(m) && IsSlot(m, i, p) && IsSlot(m, j, q) && (i != j || p != q)
    ensures RowAt(m, i, p) != RowAt(m, j, q)
  {
    TimesFollowOrder(m, i, p, j, q);
  }

  lemma {:induction false} PassedSlotStays(m: Batch, states: seq<State>, events: seq<Event>, k: nat, j: nat,
                                           i: nat, p: nat)
    requires IsRun(m, states, events) && k <= j < |states| && IsSlot(m, i, p)
    requires |states[k].next| == |m.bugs| && p < states[k].next[i]
    ensures |states[j].next| == |m.bugs| && p < states[j].next[i]
    ensures RowAt(m, i, p) in states[j].rows <==> RowAt(m, i, p) in states[k].rows
    decreases j
  {
    if k < j {
      PassedSlotStays(m, states, events, k, j - 1, i, p);
      assert IsStep(m, states, events, j - 1);
      var e := events[j - 1];
      if e.Next? { SlotsDiffer(m, i, p, e.i, states[j - 1].next[e.i]); }
    }
  }

  /** Exactly which patches have a row from then on: those that are imported, and those that are imported but
      cannot be evaluated. */
  lemma RowStaysIff(m: Batch, states: seq<State>, events: seq<Event>, k: nat, j: nat)
    requires IsRun(m, states, events) && k < j < |states| && events[k].Next? && Enabled(m, states[k], events[k])
    ensures RowAt(m, events[k].i, states[k].next[events[k].i]) in states[j].rows <==>
            events[k].fate == Imported || events[k].fate == Unevaluated
  {
    var i := events[k].i;
    RunKeepsInv(m, states, events, k);
    NextRowIsNew(m, states[k], i);
    assert IsStep(m, states, events, k);
    PassedSlotStays(m, states, events, k + 1, j, i, states[k].next[i]);
  }

  // ---------------------------------------------------------------- the ordered query

  predicate Matches(r: Row, config: nat, bugs: seq<string>) { r.config == config && r.bug in bugs }

  function Filtered(rows: seq<Row>, config: nat, bugs: seq<string>): seq<Row> {
    if rows == [] then []
    else Filtered(rows[..|rows| - 1], config, bugs) + if Matches(rows[|rows| - 1], config, bugs)
        then [rows[|rows| - 1]] else []
  }

  /** Some order of the matching rows by bug id and added time; rows equal in both come in any order. */
  ghost predicate Answers(rows: seq<Row>, config: nat, bugs: seq<string>, answer: seq<Row>) {
    && multiset(answer) == multiset(Filtered(rows, config, bugs))
    && forall a, b :: 0 <= a < b < |answer| ==>
         Less(answer[a].bug, answer[b].bug) || (answer[a].bug == answer[b].bug && answer[a].time <= answer[b].time)
  }

  /** The rows of one bug of one batch, in the order of the answer. */
  function Only(answer: seq<Row>, bug: string, batch: nat): seq<Row> {
    if answer == [] then []
    else
      Only(answer[..|answer| - 1], bug, batch) +
      if answer[|answer| - 1].bug == bug && answer[|answer| - 1].batch == batch then [answer[|answer| - 1]] else []
  }

  /** The rows of the `i`-th bug that reached the table, in the order of their patches' ids. */
  function Surviving(m: Batch, rows: seq<Row>, i: nat, n: nat): seq<Row>
    requires i < |m.bugs| && n <= |Patches(m, i)|
  {
    if n == 0 then []
    else Surviving(m, rows, i, n - 1) + if RowAt(m, i, n - 1) in rows then [RowAt(m, i, n - 1)] else []
  }

  ghost predicate Ascending(s: seq<Row>) {
    forall a, b :: 0 <= a < b < |s| ==> s[a].time < s[b].time
  }

  lemma FrontIsEarlier(s: seq<Row>)
    requires Ascending(s) && s != []
    ensures forall r :: r in s[..|s| - 1] <==> r in s && r.time < s[|s| - 1].time
    ensures forall r :: r in s ==> r == s[|s| - 1] || r.time < s[|s| - 1].time
  {
    assert s == s[..|s| - 1] + [s[|s| - 1]];
  }

  lemma {:induction false} SameRowsSameOrder(s: seq<Row>, t: seq<Row>)
    requires Ascending(s) && Ascending(t) && forall r :: r in s <==> r in t
    ensures s == t
  {
    assert t != [] ==> t[0] in t;
    if s != [] {
      assert s[|s| - 1] in t;
      assert t[|t| - 1] in s;
      FrontIsEarlier(s);
      FrontIsEarlier(t);
      SameRowsSameOrder(s[..|s| - 1], t[..|t| - 1]);
    }
  }

  lemma {:induction false} SurvivingRows(m: Batch, rows: seq<Row>, i: nat, n: nat)
    requires i < |m.bugs| && n <= |Patches(m, i)|
    ensures forall r :: r in Surviving(m, rows, i, n) <==> r in rows && exists p: nat :: p < n && IsRowOf(m, r, i, p)
    ensures Ascending(Surviving(m, rows, i, n))
  {
    if n > 0 {
      SurvivingRows(m, rows, i, n - 1);
      var before := Surviving(m, rows, i, n - 1);
      assert IsRowOf(m, RowAt(m, i, n - 1), i, n - 1);
      forall a | 0 <= a < |before| ensures before[a].time < Time(m, i, n - 1) {
        assert before[a] in before;
      }
    }
  }

  lemma {:induction false} FilteredRows(rows: seq<Row>, config: nat, bugs: seq<string>, r: Row)
    ensures multiset(Filtered(rows, config, bugs))[r] == if Matches(r, config, bugs) then multiset(rows)[r] else 0
  {
    if rows != [] {
      FilteredRows(rows[..|rows| - 1], config, bugs, r);
      assert rows == rows[..|rows| - 1] + [rows[|rows| - 1]];
    }
  }

  lemma {:induction false} OnlyRows(answer: seq<Row>, bug: string, batch: nat)
    requires forall a, b :: 0 <= a < b < |answer| && answer[a].bug == bug == answer[b].bug &&
                            answer[a].batch == batch == answer[b].batch ==>
                              answer[a].time < answer[b].time
    ensures forall r :: r in Only(answer, bug, batch) <==> r in answer && r.bug == bug && r.batch == batch
    ensures Ascending(Only(answer, bug, batch))
  {
    if answer != [] {
      OnlyRows(answer[..|answer| - 1], bug, batch);
      var before := Only(answer[..|answer| - 1], bug, batch);
      forall a | 0 <= a < |before| && answer[|answer| - 1].bug == bug && answer[|answer| - 1].batch == batch
        ensures before[a].time < answer[|answer| - 1].time
      {
        assert before[a] in before && before[a] in answer[..|answer| - 1];
      }
    }
  }

  lemma {:induction false} CountOnce(rows: seq<Row>, r: Row)
    requires forall a, b :: 0 <= a < b < |rows| && rows[a] == r ==> rows[b] != r
    ensures multiset(rows)[r] <= 1
  {
    if rows != [] {
      CountOnce(rows[..|rows| - 1], r);
      assert rows == rows[..|rows| - 1] + [rows[|rows| - 1]];
      if rows[|rows| - 1] == r { assert r !in rows[..|rows| - 1]; }
    }
  }

  /** Two rows of one bug of the batch appear in the answer in strict order of their times. */
  lemma AnswerIsStrict(m: Batch, s: State, bugs: seq<string>, answer: seq<Row>, a: nat, b: nat)
    requires IsBatch(m) && Inv(m, s) && Answers(s.rows, m.config, bugs, answer) && a < b < |answer|
    requires answer[a].bug == answer[b].bug && answer[a].batch == m.number == answer[b].batch
    ensures answer[a].time < answer[b].time
  {
    LessIsTotal(answer[a].bug, answer[b].bug);
    if answer[a].time == answer[b].time {
      FilteredRows(s.rows, m.config, bugs, answer[a]);
      FilteredRows(s.rows, m.config, bugs, answer[b]);
      assert answer[a] in multiset(answer) && answer[b] in multiset(answer);
      assert FromSlot(m, s.next, answer[a]) && FromSlot(m, s.next, answer[b]);
      var i: nat, p: nat :| IsRowOf(m, answer[a], i, p);
      var j: nat, q: nat :| IsRowOf(m, answer[b], j, q);
      TimesFollowOrder(m, i, p, j, q);
      CountTwice(answer, a, b);
      CountOnce(s.rows, answer[a]);
      assert false;
    }
  }

  /** In whatever order the tasks ran and whichever patches failed, the ordered query lists each bug's
      rows of the batch exactly in the order of the patches' ids, and lists all that reached the table. */
  lemma ImportOrderSurvives(m: Batch, states: seq<State>, events: seq<Event>, k: nat, bugs: seq<string>,
                            answer: seq<Row>, i: nat)
    requires IsRun(m, states, events) && k < |states|
    requires i < |m.bugs| && m.bugs[i] in bugs && Answers(states[k].rows, m.config, bugs, answer)
    ensures Only(answer, m.bugs[i], m.number) == Surviving(m, states[k].rows, i, |Patches(m, i)|)
  {
    var rows := states[k].rows;
    RunKeepsInv(m, states, events, k);
    forall a, b | 0 <= a < b < |answer| && answer[a].bug == m.bugs[i] == answer[b].bug
        && answer[a].batch == m.number == answer[b].batch
      ensures answer[a].time < answer[b].time
    {
      AnswerIsStrict(m, states[k], bugs, answer, a, b);
    }
    OnlyRows(answer, m.bugs[i], m.number);
    SurvivingRows(m, rows, i, |Patches(m, i)|);
    forall r ensures r in Only(answer, m.bugs[i], m.number) <==> r in Surviving(m, rows, i, |Patches(m, i)|) {
      SameMembers(m, states[k], bugs, answer, i, r);
    }
    SameRowsSameOrder(Only(answer, m.bugs[i], m.number), Surviving(m, rows, i, |Patches(m, i)|));
  }

  lemma SameMembers(m: Batch, s: State, bugs: seq<string>, answer: seq<Row>, i: nat, r: Row)
    requires IsBatch(m) && Inv(m, s) && i < |m.bugs| && m.bugs[i] in bugs && Answers(s.rows, m.config, bugs, answer)
    ensures (r in answer && r.bug == m.bugs[i] && r.batch == m.number) <==>
            (r in s.rows && exists p: nat :: p < |Patches(m, i)| && IsRowOf(m, r, i, p))
  {
    FilteredRows(s.rows, m.config, bugs, r);
    assert r in answer <==> r in multiset(answer);
    assert r in s.rows <==> r in multiset(s.rows);
    if r in s.rows && r.bug == m.bugs[i] && InBatch(m, r) {
      assert FromSlot(m, s.next, r);
      var j: nat, p: nat :| IsRowOf(m, r, j, p);
      LessIsTotal(m.bugs[i], m.bugs[j]);
      assert j == i;
    }
  }

  // ---------------------------------------------------------------- the importer

  /** Whether a bug's images could be set up, and what becomes of its patches. */
  datatype Work = Work(ready: bool, fates: seq<Fate>)

  function Successes(fates: seq<Fate>): nat {
    if fates == [] then 0 else Successes(fates[..|fates| - 1]) + if fates[|fates| - 1] == Imported then 1 else 0
  }

  function Failures(fates: seq<Fate>): nat {
    if fates == [] then 0 else Failures(fates[..|fates| - 1]) + if fates[|fates| - 1] == Imported then 0 else 1
  }

  /** The rows that the task of the `i`-th bug has added after `n` patches. */
  function TaskRows(m: Batch, i: nat, fates: seq<Fate>, n: nat): seq<Row>
    requires i < |m.bugs| && n <= |fates| <= |Patches(m, i)|
  {
    if n == 0 then []
    else TaskRows(m, i, fates, n - 1) + if fates[n - 1] == Lost then [] else [RowAt(m, i, n - 1)]
  }

  /** One fate for each patch of the `i`-th bug. */
  predicate Fits(m: Batch, i: nat, w: Work) {
    i < |m.bugs| && |w.fates| == |Patches(m, i)|
  }

  /** The rows of a whole task; a bug whose images fail has none, and no successes. */
  function RowsOf(m: Batch, i: nat, w: Work): seq<Row>
    requires Fits(m, i, w)
  {
    if w.ready then TaskRows(m, i, w.fates, |w.fates|) else []
  }

  /** They are one for each patch that is not lost, in the order of the patches, if the images are ready. */
  lemma RowsOfAre(m: Batch, i: nat, w: Work)
    requires Fits(m, i, w)
    ensures Ascending(RowsOf(m, i, w))
    ensures forall r :: r in RowsOf(m, i, w) <==>
              w.ready && exists p: nat :: p < |w.fates| && w.fates[p] != Lost && r == RowAt(m, i, p)
    ensures SuccessesOf(w) == if w.ready then multiset(w.fates)[Imported] else 0
  {
    TaskRowsAre(m, i, w.fates, |w.fates|);
    SuccessesWithin(w.fates);
  }

  function SuccessesOf(w: Work): nat {
    if w.ready then Successes(w.fates) else 0
  }

  /** The task of a bug whose images are ready has dealt with its first `n` patches. */
  ghost predicate HaveDealt(m: Batch, i: nat, w: Work, n: nat, rows0: seq<Row>, rows: seq<Row>, imported: nat,
                            errors: nat) {
    && Fits(m, i, w) && n <= |w.fates| && rows == rows0 + TaskRows(m, i, w.fates, n)
    && imported == Successes(w.fates[..n]) && errors == Failures(w.fates[..n])
  }

  lemma NoneDealt(m: Batch, i: nat, w: Work, rows: seq<Row>)
    requires Fits(m, i, w)
    ensures HaveDealt(m, i, w, 0, rows, rows, 0, 0)
  {
    assert rows + TaskRows(m, i, w.fates, 0) == rows;
  }

  lemma OneMorePatch(m: Batch, i: nat, w: Work, n: nat, rows0: seq<Row>, rows: seq<Row>, imported: nat, errors: nat)
    requires Fits(m, i, w) && n < |w.fates|
    requires var before := rows0 + TaskRows(m, i, w.fates, n);
             rows == if w.fates[n] == Lost then before else before + [RowAt(m, i, n)]
    requires imported == Successes(w.fates[..n]) && errors == Failures(w.fates[..n])
    ensures w.fates[n] == Imported ==> HaveDealt(m, i, w, n + 1, rows0, rows, imported + 1, errors)
    ensures w.fates[n] != Imported ==> HaveDealt(m, i, w, n + 1, rows0, rows, imported, errors + 1)
  {
    OneMoreFate(w.fates, n);
    OneMoreRow(m, i, w.fates, n, rows0);
  }

  lemma OneMoreFate(fates: seq<Fate>, n: nat)
    requires n < |fates|
    ensures Successes(fates[..n + 1]) == Successes(fates[..n]) + if fates[n] == Imported then 1 else 0
    ensures Failures(fates[..n + 1]) == Failures(fates[..n]) + if fates[n] == Imported then 0 else 1
  {
    assert fates[..n + 1][..n] == fates[..n];
  }

  lemma OneMoreRow(m: Batch, i: nat, fates: seq<Fate>, n: nat, rows0: seq<Row>)
    requires i < |m.bugs| && n < |fates| <= |Patches(m, i)|
    ensures var before := rows0 + TaskRows(m, i, fates, n);
            rows0 + TaskRows(m, i, fates, n + 1) == if fates[n] == Lost then before else before + [RowAt(m, i, n)]
  {
    var r := RowAt(m, i, n);
    if fates[n] == Lost {
      assert TaskRows(m, i, fates, n) + [] == TaskRows(m, i, fates, n);
    } else {
      Regroup(rows0, TaskRows(m, i, fates, n), [r]);
    }
  }

  lemma AllDealt(m: Batch, i: nat, w: Work, rows0: seq<Row>, rows: seq<Row>, imported: nat, errors: nat)
    requires HaveDealt(m, i, w, |w.fates|, rows0, rows, imported, errors)
    ensures rows == rows0 + TaskRows(m, i, w.fates, |w.fates|)
    ensures imported == Successes(w.fates) && errors == |w.fates| - imported
  {
    assert w.fates[..|w.fates|] == w.fates;
    SuccessesWithin(w.fates);
  }

  ghost predicate AllFit(m: Batch, work: seq<Work>) {
    |work| == |m.bugs| && forall i :: 0 <= i < |work| ==> Fits(m, i, work[i])
  }

  function TotalSuccesses(work: seq<Work>, n: nat): nat
    requires n <= |work|
  {
    if n == 0 then 0 else TotalSuccesses(work, n - 1) + SuccessesOf(work[n - 1])
  }

  /** The rows that the first `n` tasks add if they run one after the other. */
  ghost function AllRows(m: Batch, work: seq<Work>, n: nat): seq<Row>
    requires AllFit(m, work) && n <= |work|
  {
    if n == 0 then [] else AllRows(m, work, n - 1) + RowsOf(m, n - 1, work[n - 1])
  }

  /** The first `n` tasks have run and the others have not begun. */
  ghost predicate HaveRun(m: Batch, work: seq<Work>, n: nat, rows0: seq<Row>, s: State, successful: nat) {
    && AllFit(m, work) && n <= |work| == |s.next|
    && s.rows == rows0 + AllRows(m, work, n) && successful == TotalSuccesses(work, n)
    && forall j :: n <= j < |s.next| ==> s.next[j] == 0
  }

  lemma OneMoreTask(m: Batch, work: seq<Work>, n: nat, rows0: seq<Row>, s: State, successful: nat, s': State)
    requires HaveRun(m, work, n, rows0, s, successful) && n < |work| && Fits(m, n, work[n])
    requires s'.rows == s.rows + RowsOf(m, n, work[n]) && |s'.next| == |s.next|
    requires forall j :: n < j < |s.next| ==> s'.next[j] == s.next[j]
    ensures HaveRun(m, work, n + 1, rows0, s', successful + SuccessesOf(work[n]))
  {
    Regroup(rows0, AllRows(m, work, n), RowsOf(m, n, work[n]));
    NextRows(m, work, n);
  }

  lemma NoneHaveRun(m: Batch, work: seq<Work>, s: State)
    requires AllFit(m, work) && |s.next| == |m.bugs| && forall j :: 0 <= j < |s.next| ==> s.next[j] == 0
    ensures HaveRun(m, work, 0, s.rows, s, 0)
  {
    assert s.rows + AllRows(m, work, 0) == s.rows;
  }

  lemma AllHaveRun(m: Batch, work: seq<Work>, rows0: seq<Row>, s: State, successful: nat)
    requires HaveRun(m, work, |m.bugs|, rows0, s, successful)
    ensures s.rows == rows0 + AllRows(m, work, |work|)
    ensures successful == TotalSuccesses(work, |work|) <= Total(m)
  {
    SuccessesWithinOffset(m, work, |work|);
  }

  lemma Regroup(a: seq<Row>, b: seq<Row>, c: seq<Row>)
    ensures a + b + c == a + (b + c)
  {
  }

  lemma NextRows(m: Batch, work: seq<Work>, n: nat)
    requires AllFit(m, work) && n < |work| && Fits(m, n, work[n])
    ensures AllRows(m, work, n + 1) == AllRows(m, work, n) + RowsOf(m, n, work[n])
    ensures TotalSuccesses(work, n + 1) == TotalSuccesses(work, n) + SuccessesOf(work[n])
  {
  }

  lemma {:induction false} SuccessesWithin(fates: seq<Fate>)
    ensures Successes(fates) + Failures(fates) == |fates|
    ensures Successes(fates) == multiset(fates)[Imported]
  {
    if fates != [] {
      SuccessesWithin(fates[..|fates| - 1]);
      assert fates == fates[..|fates| - 1] + [fates[|fates| - 1]];
    }
  }

  /** The rows of a task: those of its patches that are not lost, in their order. */
  lemma {:induction false} TaskRowsAre(m: Batch, i: nat, fates: seq<Fate>, n: nat)
    requires i < |m.bugs| && n <= |fates| <= |Patches(m, i)|
    ensures Ascending(TaskRows(m, i, fates, n))
    ensures forall r :: r in TaskRows(m, i, fates, n) <==>
              exists p: nat :: p < n && fates[p] != Lost && r == RowAt(m, i, p)
  {
    if n > 0 {
      TaskRowsAre(m, i, fates, n - 1);
      var before := TaskRows(m, i, fates, n - 1);
      forall a | 0 <= a < |before| ensures before[a].time < Time(m, i, n - 1) {
        assert before[a] in before;
      }
    }
  }

  lemma {:induction false} SuccessesWithinOffset(m: Batch, work: seq<Work>, n: nat)
    requires AllFit(m, work) && n <= |work|
    ensures TotalSuccesses(work, n) <= Offset(m, n)
  {
    if n > 0 {
      SuccessesWithinOffset(m, work, n - 1);
      SuccessesWithin(work[n - 1].fates);
      assert Fits(m, n - 1, work[n - 1]);
    }
  }

  class PatchImporter {
    const m: Batch
    var next: seq<nat>
    var rows: seq<Row>

    constructor (m: Batch, rows: seq<Row>)
      ensures this.m == m && this.rows == rows && next == seq(|m.bugs|, i => 0)
    {
      this.m := m;
      next := seq(|m.bugs|, i => 0);
      this.rows := rows;
    }

    function Current(): State
      reads this
    {
      State(next, rows)
    }

    /** The tasks in the order of their bugs' ids, each with the offset of its first added time. */
    method PlanTasks() returns (offsets: seq<nat>, total: nat)
      ensures |offsets| == |m.bugs| && total == Total(m)
      ensures forall i :: 0 <= i < |m.bugs| ==> offsets[i] == Offset(m, i)
    {
      offsets, total := [], 0;
      for i := 0 to |m.bugs|
        invariant |offsets| == i && total == Offset(m, i)
        invariant forall j :: 0 <= j < i ==> offsets[j] == Offset(m, j)
      {
        offsets := offsets + [total];
        total := total + |Patches(m, i)|;
      }
    }

    /** One step of task `i`, as of any other interleaved with it. */
    method ImportSinglePatch(i: nat, patch: Patch, time: int, fate: Fate) returns (imported: bool)
      requires Enabled(m, Current(), Next(i, fate))
      requires patch == Patches(m, i)[next[i]] && time == Time(m, i, next[i])
      modifies this
      ensures Current() == Apply(m, old(Current()), Next(i, fate))
      ensures rows == if fate == Lost then old(rows) else old(rows) + [Row(m.bugs[i], patch, time, m.config, m.number)]
      ensures next == old(next)[i := old(next)[i] + 1]
      ensures imported <==> fate == Imported
    {
      if fate != Lost {
        rows := rows + [Row(m.bugs[i], patch, time, m.config, m.number)];
      }
      next := next[i := next[i] + 1];
      imported := fate == Imported;
    }

    /** Task `i` run alone. */
    method ImportBugPatches(i: nat, offset: nat, work: Work) returns (imported: nat, errors: nat)
      requires i < |m.bugs| == |next| && next[i] == 0 && offset == Offset(m, i)
      requires Fits(m, i, work)
      modifies this
      ensures next == if work.ready then old(next)[i := |Patches(m, i)|] else old(next)
      ensures rows == old(rows) + RowsOf(m, i, work) && imported == SuccessesOf(work)
      ensures errors == if work.ready then |work.fates| - imported else 1
    {
      imported, errors := 0, 0;
      if !work.ready {
        errors := 1;
        return;
      }
      NoneDealt(m, i, work, rows);
      var patches := Patches(m, i);
      for p := 0 to |patches|
        invariant next == old(next)[i := p]
        invariant HaveDealt(m, i, work, p, old(rows), rows, imported, errors)
      {
        var ok := ImportSinglePatch(i, patches[p], m.start + offset + p, work.fates[p]);
        OneMorePatch(m, i, work, p, old(rows), rows, imported, errors);
        if ok {
          imported := imported + 1;
        } else {
          errors := errors + 1;
        }
      }
      AllDealt(m, i, work, old(rows), rows, imported, errors);
    }

    /** The next task after `i` others. */
    method RunTask(i: nat, offset: nat, work: seq<Work>, ghost successful: nat, ghost rows0: seq<Row>)
      returns (imported: nat)
      requires i < |m.bugs| && offset == Offset(m, i) && HaveRun(m, work, i, rows0, Current(), successful)
      modifies this
      ensures HaveRun(m, work, i + 1, rows0, Current(), successful + imported)
    {
      assert Fits(m, i, work[i]);
      ghost var before := Current();
      var errors;
      imported, errors := ImportBugPatches(i, offset, work[i]);
      OneMoreTask(m, work, i, rows0, before, successful, Current());
    }

    method RunTasks(offsets: seq<nat>, work: seq<Work>) returns (successful: nat)
      requires |offsets| == |m.bugs| && forall i :: 0 <= i < |m.bugs| ==> offsets[i] == Offset(m, i)
      requires |next| == |m.bugs| && forall j :: 0 <= j < |next| ==> next[j] == 0
      requires AllFit(m, work)
      modifies this
      ensures successful == TotalSuccesses(work, |work|) <= Total(m)
      ensures rows == old(rows) + AllRows(m, work, |work|)
    {
      successful := 0;
      NoneHaveRun(m, work, Current());
      for i := 0 to |m.bugs|
        invariant HaveRun(m, work, i, old(rows), Current(), successful)
      {
        var imported := RunTask(i, offsets[i], work, successful, old(rows));
        successful := successful + imported;
      }
      AllHaveRun(m, work, old(rows), Current(), successful);
    }

    /** The whole import, its tasks one after the other. */
    method ImportPatches(work: seq<Work>) returns (total: nat, successful: nat, failed: nat)
      requires |next| == |m.bugs| && forall j :: 0 <= j < |next| ==> next[j] == 0
      requires AllFit(m, work)
      modifies this
      ensures total == Total(m) && successful == TotalSuccesses(work, |work|)
      ensures successful + failed == total
      ensures rows == old(rows) + AllRows(m, work, |work|)
    {
      var offsets;
      offsets, total := PlanTasks();
      successful := RunTasks(offsets, work);
      failed := total - successful;
    }
  }
}
