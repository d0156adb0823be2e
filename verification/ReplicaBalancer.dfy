/** Least-loaded choice among the replicas of a model configuration: every user increments the
    reference count of the first replica with the smallest count on entry and decrements it on exit. */
module ReplicaBalancer {
  import opened Prelude

  function Min(counts: seq<nat>): (m: nat)
    requires counts != []
    ensures m in counts && forall c :: c in counts ==> m <= c
  {
    if |counts| == 1 then counts[0]
    else
      var m := Min(counts[1..]);
      assert counts == [counts[0]] + counts[1..];
      if counts[0] <= m then counts[0] else m
  }

  /** `counts.index(x)`: the first position of `x`. */
  function IndexOf(counts: seq<nat>, x: nat): (i: nat)
    requires x in counts
    ensures i < |counts| && counts[i] == x && x !in counts[..i]
  {
    if counts[0] == x then 0
    else
      assert counts == [counts[0]] + counts[1..];
      var i := IndexOf(counts[1..], x);
      assert counts[..i + 1] == [counts[0]] + counts[1..][..i];
      i + 1
  }

  function LeastLoaded(counts: seq<nat>): (i: nat)
    requires counts != []
    ensures i < |counts| && forall j :: 0 <= j < |counts| ==> counts[i] <= counts[j]
  {
    assert forall j :: 0 <= j < |counts| ==> counts[j] in counts;
    IndexOf(counts, Min(counts))
  }

  /** Of several least loaded replicas it is the first. */
  lemma LeastLoadedIsFirst(counts: seq<nat>, j: nat)
    requires counts != [] && j < LeastLoaded(counts)
    ensures counts[LeastLoaded(counts)] < counts[j]
  {
    assert counts[j] in counts[..LeastLoaded(counts)];
  }

  function Sum(counts: seq<nat>): nat {
    if counts == [] then 0 else counts[0] + Sum(counts[1..])
  }

  lemma {:induction false} SumUpdate(counts: seq<nat>, i: nat, x: nat)
    requires i < |counts|
    ensures Sum(counts[i := x]) + counts[i] == Sum(counts) + x
  {
    if i == 0 {
      assert counts[i := x][1..] == counts[1..];
    } else {
      SumUpdate(counts[1..], i - 1, x);
      assert counts[i := x][1..] == counts[1..][i - 1 := x];
    }
  }

  lemma {:induction false} SumAtLeast(counts: seq<nat>, m: nat)
    requires forall i :: 0 <= i < |counts| ==> m <= counts[i]
    ensures m * |counts| <= Sum(counts)
  {
    if counts != [] {
      SumAtLeast(counts[1..], m);
      assert m * |counts| == m + m * |counts[1..]|;
    }
  }

  // ---------------------------------------------------------------- runs

  /** `users` maps each live user to its replica; `peak` is the largest number of users so far. */
  datatype Pool = Pool(counts: seq<nat>, users: map<nat, nat>, peak: nat)

  datatype Event = Acquire(user: nat) | Release(user: nat)

  predicate Enabled(p: Pool, e: Event) {
    match e
    case Acquire(u) => u !in p.users
    case Release(u) => u in p.users
  }

  function Apply(p: Pool, e: Event): Pool
    requires p.counts != [] && Enabled(p, e)
    requires e.Release? ==> p.users[e.user] < |p.counts| && p.counts[p.users[e.user]] > 0
  {
    match e
    case Acquire(u) =>
      var i := LeastLoaded(p.counts);
      Pool(p.counts[i := p.counts[i] + 1], p.users[u := i],
           if |p.users| + 1 > p.peak then |p.users| + 1 else p.peak)
    case Release(u) =>
      var i := p.users[u];
      Pool(p.counts[i := p.counts[i] - 1], p.users - {u}, p.peak)
  }

  function UsersOf(users: map<nat, nat>, i: nat): set<nat> {
    set u | u in users && users[u] == i
  }

  /** `peak / n`, rounded up */
  function FairShare(peak: nat, n: nat): nat
    requires n > 0
  {
    (peak + n - 1) / n
  }

  ghost predicate Inv(p: Pool) {
    && p.counts != []
    && CountsUsers(p.counts, p.users)
    && Sum(p.counts) == |p.users| <= p.peak
    && WithinShare(p.counts, p.peak)
  }

  ghost predicate CountsUsers(counts: seq<nat>, users: map<nat, nat>) {
    && (forall u :: u in users ==> users[u] < |counts|)
    && (forall i :: 0 <= i < |counts| ==> counts[i] == |UsersOf(users, i)|)
  }

  ghost predicate WithinShare(counts: seq<nat>, peak: nat) {
    counts != [] && forall i :: 0 <= i < |counts| ==> counts[i] <= FairShare(peak, |counts|)
  }

  lemma ShareGrows(m: nat, total: nat, n: nat)
    requires n > 0 && m * n <= total
    ensures m + 1 <= FairShare(total + 1, n)
  {
    assert (m + 1) * n <= total + n;
    DivisionBound(m + 1, total + n, n);
  }

  lemma DivisionBound(q: nat, x: nat, n: nat)
    requires n > 0 && q * n <= x
    ensures q <= x / n
  {
    var d := x / n;
    assert x < (d + 1) * n;
    if d < q { ProductMonotone(d + 1, q, n); }
  }

  lemma ProductMonotone(a: nat, b: nat, n: nat)
    requires a <= b
    ensures a * n <= b * n
  {
  }

  lemma ShareMonotone(p: nat, q: nat, n: nat)
    requires n > 0 && p <= q
    ensures FairShare(p, n) <= FairShare(q, n)
  {
    assert FairShare(p, n) * n <= p + n - 1;
    DivisionBound(FairShare(p, n), q + n - 1, n);
  }

  /** Giving the next user the least loaded of `n` replicas keeps every count within its share. */
  lemma NextShare(counts: seq<nat>, total: nat, peak: nat)
    requires counts != [] && Sum(counts) == total <= peak
    requires WithinShare(counts, peak)
    ensures var i := LeastLoaded(counts);
            var peak' := if total + 1 > peak then total + 1 else peak;
            && Sum(counts[i := counts[i] + 1]) == total + 1
            && WithinShare(counts[i := counts[i] + 1], peak')
  {
    var i, n := LeastLoaded(counts), |counts|;
    var peak' := if total + 1 > peak then total + 1 else peak;
    SumUpdate(counts, i, counts[i] + 1);
    SumAtLeast(counts, counts[i]);
    ShareGrows(counts[i], total, n);
    ShareMonotone(total + 1, peak', n);
    ShareMonotone(peak, peak', n);
  }

  lemma CountOneMore(counts: seq<nat>, users: map<nat, nat>, u: nat, i: nat)
    requires CountsUsers(counts, users) && u !in users && i < |counts|
    ensures CountsUsers(counts[i := counts[i] + 1], users[u := i]) && |users[u := i]| == |users| + 1
  {
    var users' := users[u := i];
    assert users'.Keys == users.Keys + {u};
    assert UsersOf(users', i) == UsersOf(users, i) + {u};
    forall j | 0 <= j < |counts| && j != i ensures counts[j] == |UsersOf(users', j)| {
      assert UsersOf(users', j) == UsersOf(users, j);
    }
  }

  lemma CountOneLess(counts: seq<nat>, users: map<nat, nat>, u: nat)
    requires CountsUsers(counts, users) && u in users
    ensures counts[users[u]] > 0 && |users - {u}| == |users| - 1
    ensures CountsUsers(counts[users[u] := counts[users[u]] - 1], users - {u})
  {
    var i, users' := users[u], users - {u};
    assert u in UsersOf(users, i);
    assert users'.Keys == users.Keys - {u};
    assert UsersOf(users', i) == UsersOf(users, i) - {u};
    forall j | 0 <= j < |counts| && j != i ensures counts[j] == |UsersOf(users', j)| {
      assert UsersOf(users', j) == UsersOf(users, j);
    }
  }

  lemma AcquireKeepsInv(p: Pool, u: nat)
    requires Inv(p) && u !in p.users
    ensures Inv(Apply(p, Acquire(u)))
  {
    NextShare(p.counts, |p.users|, p.peak);
    CountOneMore(p.counts, p.users, u, LeastLoaded(p.counts));
  }

  lemma ReleaseKeepsInv(p: Pool, u: nat)
    requires Inv(p) && u in p.users
    ensures p.counts[p.users[u]] > 0 && Inv(Apply(p, Release(u)))
  {
    CountOneLess(p.counts, p.users, u);
    SumUpdate(p.counts, p.users[u], p.counts[p.users[u]] - 1);
  }

  predicate Empty(p: Pool) {
    p.counts != [] && (forall i :: 0 <= i < |p.counts| ==> p.counts[i] == 0) && p.users == map[] && p.peak == 0
  }

  /** `ps` is what the pool goes through when `es` happen in order. */
  ghost predicate IsRun(ps: seq<Pool>, es: seq<Event>) {
    && |ps| == |es| + 1 && Empty(ps[0])
    && forall i :: 0 <= i < |es| ==> IsStep(ps, es, i)
  }

  /** A release decrements the count of the replica the user was given. */
  ghost predicate IsStep(ps: seq<Pool>, es: seq<Event>, i: nat)
    requires i < |es| < |ps|
  {
    && Enabled(ps[i], es[i]) && ps[i].counts != []
    && (es[i].Release? ==> ps[i].users[es[i].user] < |ps[i].counts| && ps[i].counts[ps[i].users[es[i].user]] > 0)
    && ps[i + 1] == Apply(ps[i], es[i])
  }

  lemma {:induction false} SumOfZeros(counts: seq<nat>)
    requires forall i :: 0 <= i < |counts| ==> counts[i] == 0
    ensures Sum(counts) == 0
  {
    if counts != [] { SumOfZeros(counts[1..]); }
  }

  lemma {:induction false} RunKeepsInv(ps: seq<Pool>, es: seq<Event>, i: nat)
    requires IsRun(ps, es) && i < |ps|
    ensures Inv(ps[i])
  {
    if i == 0 {
      SumOfZeros(ps[0].counts);
      forall j | 0 <= j < |ps[0].counts| ensures ps[0].counts[j] == |UsersOf(ps[0].users, j)| {
        assert UsersOf(ps[0].users, j) == {};
      }
    } else {
      RunKeepsInv(ps, es, i - 1);
      assert IsStep(ps, es, i - 1);
      if es[i - 1].Acquire? {
        AcquireKeepsInv(ps[i - 1], es[i - 1].user);
      } else {
        ReleaseKeepsInv(ps[i - 1], es[i - 1].user);
      }
    }
  }

  /** Load bound: at every moment each count is the number of live users of its replica, no count is
      negative or lost on release, and no replica has more than its fair share of the largest number
      of users there ever were at once. */
  lemma LoadIsBounded(ps: seq<Pool>, es: seq<Event>, i: nat, r: nat)
    requires IsRun(ps, es) && i < |ps| && r < |ps[i].counts|
    ensures ps[i].counts[r] == |UsersOf(ps[i].users, r)| <= FairShare(ps[i].peak, |ps[i].counts|)
    ensures forall u :: u in ps[i].users ==> ps[i].users[u] < |ps[i].counts| && ps[i].counts[ps[i].users[u]] > 0
  {
    RunKeepsInv(ps, es, i);
    forall u | u in ps[i].users ensures ps[i].counts[ps[i].users[u]] > 0 {
      ReleaseKeepsInv(ps[i], u);
    }
  }

  /** `peak` is what its name says: the number of users was never larger, and was that large once. */
  lemma {:induction false} PeakIsMaximum(ps: seq<Pool>, es: seq<Event>, i: nat) returns (top: nat)
    requires IsRun(ps, es) && i < |ps|
    ensures forall j :: 0 <= j <= i ==> |ps[j].users| <= ps[i].peak
    ensures top <= i && |ps[top].users| == ps[i].peak
  {
    if i == 0 {
      top := 0;
    } else {
      top := PeakIsMaximum(ps, es, i - 1);
      StepPeak(ps, es, i - 1);
      if ps[i].peak != ps[i - 1].peak { top := i; }
    }
  }

  lemma StepPeak(ps: seq<Pool>, es: seq<Event>, i: nat)
    requires IsRun(ps, es) && i < |es|
    ensures ps[i].peak <= ps[i + 1].peak && |ps[i + 1].users| <= ps[i + 1].peak
    ensures ps[i + 1].peak in {ps[i].peak, |ps[i + 1].users|}
  {
    RunKeepsInv(ps, es, i);
    assert IsStep(ps, es, i);
    if es[i].Acquire? {
      assert ps[i + 1].users.Keys == ps[i].users.Keys + {es[i].user};
    } else {
      assert ps[i + 1].users.Keys == ps[i].users.Keys - {es[i].user};
    }
  }

  /** While nobody leaves, the counts differ by at most one. */
  lemma {:induction false} AcquiresStayBalanced(ps: seq<Pool>, es: seq<Event>, i: nat)
    requires IsRun(ps, es) && i < |ps| && forall j :: 0 <= j < i ==> es[j].Acquire?
    ensures forall r, s :: 0 <= r < |ps[i].counts| && 0 <= s < |ps[i].counts| ==> ps[i].counts[r] <= ps[i].counts[s] + 1
  {
    if i > 0 {
      AcquiresStayBalanced(ps, es, i - 1);
      assert IsStep(ps, es, i - 1);
    }
  }

  // ---------------------------------------------------------------- the manager

  datatype Path = Replica(i: nat) | PlainPath

  /** The directories that exist for one configuration: numbered replicas, and the plain one. */
  datatype Directory = Directory(numbered: set<nat>, plain: bool)

  /** The replicas numbered from 0 up to the first gap; without any, the plain directory. */
  predicate IsDiscovered(dir: Directory, paths: seq<Path>) {
    if 0 in dir.numbered
    then |paths| !in dir.numbered && paths != [] && forall i :: 0 <= i < |paths| ==>
        i in dir.numbered && paths[i] == Replica(i)
    else dir.plain && paths == [PlainPath]
  }

  class ModelConfigManager {
    var replicaLists: map<string, seq<Path>>
    var refcounts: map<string, seq<nat>>

    ghost predicate Valid()
      reads this
    {
      && replicaLists.Keys == refcounts.Keys
      && forall key :: key in refcounts ==> |refcounts[key]| == |replicaLists[key]| > 0
    }

    constructor ()
      ensures Valid() && replicaLists == map[] && refcounts == map[]
    {
      replicaLists, refcounts := map[], map[];
    }

    method DiscoverReplicas(dir: Directory) returns (found: Result<seq<Path>, string>)
      ensures found.Failure? <==> 0 !in dir.numbered && !dir.plain
      ensures found.Success? ==> IsDiscovered(dir, found.value)
    {
      var replicas: seq<Path>, i: nat := [], 0;
      ghost var left := dir.numbered;
      while i in dir.numbered
        invariant |replicas| == i && forall j :: 0 <= j < i ==> j in dir.numbered && replicas[j] == Replica(j)
        invariant left == set j | j in dir.numbered && i <= j
        decreases left
      {
        left := left - {i};
        replicas := replicas + [Replica(i)];
        i := i + 1;
      }
      if replicas != [] {
        return Success(replicas);
      }
      if dir.plain {
        return Success([PlainPath]);
      }
      found := Failure("No model config found");
    }

    /** Entry of the context manager: the path to use and the index to give back on exit. */
    method Acquire(key: string, dir: Directory) returns (r: Result<(Path, nat), string>)
      requires Valid()
      modifies this
      ensures Valid()
      ensures r.Failure? ==> replicaLists == old(replicaLists) && refcounts == old(refcounts)
      ensures r.Failure? <==> key !in old(refcounts) && 0 !in dir.numbered && !dir.plain
      ensures r.Success? ==>
                && key in refcounts
                && (var before := if key in old(refcounts) then old(refcounts)[key] else seq(|refcounts[key]|, _ => 0);
                    && before != []
                    && r.value.1 == LeastLoaded(before)
                    && refcounts == old(refcounts)[key := before[r.value.1 := before[r.value.1] + 1]])
                && r.value.0 == replicaLists[key][r.value.1]
                && replicaLists == old(replicaLists)[key := replicaLists[key]]
                && (if key in old(replicaLists) then replicaLists[key] == old(replicaLists)[key]
                    else IsDiscovered(dir, replicaLists[key]))
    {
      if key !in replicaLists {
        var found := DiscoverReplicas(dir);
        if found.Failure? {
          return Failure(found.error);
        }
        replicaLists := replicaLists[key := found.value];
        refcounts := refcounts[key := seq(|found.value|, _ => 0)];
      }
      var counts := refcounts[key];
      var idx := LeastLoaded(counts);
      refcounts := refcounts[key := counts[idx := counts[idx] + 1]];
      r := Success((replicaLists[key][idx], idx));
    }

    /** Exit of the context manager. */
    method Release(key: string, idx: nat)
      requires Valid() && key in refcounts && idx < |refcounts[key]| && refcounts[key][idx] > 0
      modifies this`refcounts
      ensures Valid()
      ensures refcounts == old(refcounts)[key := old(refcounts)[key][idx := old(refcounts)[key][idx] - 1]]
    {
      refcounts := refcounts[key := refcounts[key][idx := refcounts[key][idx] - 1]];
    }
  }
}
