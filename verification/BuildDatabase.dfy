/** The database operations and the two worker routines of the build pipeline, as the program performs
    them, each proved to do to the tables what `BuildPipeline` says. */
module BuildDatabase {
  import opened Prelude
  import opened BuildPipeline
  import opened KArenaModels

  /** The bug has this status and a reproduced build of this commit, but no image of it. */
  predicate LacksImage(bugs: map<string, BugStatus>, kcache: map<Key, KCache>, images: map<Key, Image>,
                       status: BugStatus, bug: string, commit: BaseCommit) {
    && bug in bugs && bugs[bug] == status && Key(bug, commit) !in images
    && Key(bug, commit) in kcache && kcache[Key(bug, commit)].success
    && kcache[Key(bug, commit)].evaluation == Some(Reproduced)
  }

  class KArenaDB {
    var bugs: map<string, BugStatus>
    var kcache: map<Key, KCache>
    var images: map<Key, Image>
    var patches: seq<string>

    constructor ()
      ensures bugs == map[] && kcache == map[] && images == map[] && patches == []
    {
      bugs, kcache, images, patches := map[], map[], map[], [];
    }

    /** False stands for the exception raised by the unique constraint. */
    method InsertKCache(k: Key, job: string) returns (ok: bool)
      modifies this`kcache
      ensures ok == (k !in old(kcache))
      ensures kcache == if ok then old(kcache)[k := Submitted(job)] else old(kcache)
    {
      ok := k !in kcache;
      if ok {
        kcache := kcache[k := Submitted(job)];
      }
    }

    method GetBugsNeedingKCache(status: BugStatus) returns (found: set<string>)
      ensures found == set b | b in bugs && NeedsKCache(bugs, kcache, status, b)
    {
      found := set b | b in bugs && bugs[b] == status && Key(b, BaseCommitFor(status)) !in kcache;
    }

    method GetSubmittedKCacheBuilds() returns (ks: set<Key>)
      ensures ks == set k | k in kcache && AwaitsPoll(kcache[k])
    {
      ks := set k | k in kcache && kcache[k].success && kcache[k].evaluation.None?;
    }

    method UpdateKCachePollResult(k: Key, row: KCache)
      modifies this`kcache
      ensures kcache == if k in old(kcache) then old(kcache)[k := row] else old(kcache)
    {
      if k in kcache {
        kcache := kcache[k := row];
      }
    }

    method InsertKenvBase(k: Key) returns (ok: bool)
      modifies this`images
      ensures ok == (k !in old(images))
      ensures images == if ok then old(images)[k := Image(Pending, None, None)] else old(images)
    {
      ok := k !in images;
      if ok {
        images := images[k := Image(Pending, None, None)];
      }
    }

    method GetPendingKenvBaseBuilds() returns (ks: set<Key>)
      ensures ks == set k | k in images && AwaitsBuild(images[k])
    {
      ks := set k | k in images && (images[k].status == Pending || images[k].status == Building);
    }

    method ClaimKenvBaseBuild(k: Key) returns (claimed: bool)
      modifies this`images
      ensures (images, claimed) == Claimed(old(images), k)
    {
      claimed := k in images && images[k].status == Pending;
      if claimed {
        images := images[k := images[k].(status := Building)];
      }
    }

    method SetKenvBaseState(k: Key, status: ImageStatus, built: Option<int>, pushed: Option<int>)
      modifies this`images
      ensures images == if k in old(images) then old(images)[k := SetState(old(images)[k], status, built, pushed)]
                else old(images)
    {
      if k in images {
        var row := images[k];
        images := images[k := Image(status, if built.Some? then built else row.builtTime,
                                            if pushed.Some? then pushed else row.pushedTime)];
      }
    }

    method MarkKenvBaseBuilt(k: Key, pushed: bool, now: int)
      modifies this`images
      ensures images == if k in old(images) then old(images)[k := Marked(old(images)[k], BuildSucceeded(pushed), now)]
                else old(images)
    {
      if pushed {
        SetKenvBaseState(k, Pushed, Some(now), Some(now));
      } else {
        SetKenvBaseState(k, Built, Some(now), None);
      }
    }

    method MarkKenvBaseError(k: Key, now: int)
      modifies this`images
      ensures images == if k in old(images) then old(images)[k := Marked(old(images)[k], BuildRaised, now)]
                else old(images)
    {
      SetKenvBaseState(k, Error, None, None);
    }

    method GetBugsNeedingKenvBase(status: BugStatus) returns (found: set<string>)
      ensures found == set b | b in bugs && NeedsImage(bugs, kcache, images, status, b)
      ensures status == FixedBug ==>
                forall b :: b in found <==> LacksImage(bugs, kcache, images, FixedBug, b, ParentCommit)
      ensures status == OpenBug ==>
                forall b :: b in found <==> LacksImage(bugs, kcache, images, OpenBug, b, CrashCommit)
    {
      var commit := BaseCommitFor(status);
      found := set k | k in kcache && k.commit == commit && k.bug in bugs && bugs[k.bug] == status &&
                       kcache[k].success && kcache[k].evaluation == Some(Reproduced) && k !in images
        :: k.bug;
      forall b | b in bugs && NeedsImage(bugs, kcache, images, status, b) ensures b in found {
        assert Key(b, commit) in kcache && Key(b, commit).bug == b;
      }
      forall b | b in found ensures b in bugs && NeedsImage(bugs, kcache, images, status, b) {
        var k :| k in kcache && k.commit == commit && k.bug == b && k !in images
                 && kcache[k].success && kcache[k].evaluation == Some(Reproduced);
        assert k == Key(b, commit);
      }
    }

    method GetBugsNeedingDeveloperPatches() returns (found: set<string>)
      ensures found == set b | b in bugs && NeedsDeveloperPatch(bugs, images, patches, b)
    {
      found := set b | b in bugs && bugs[b] == FixedBug && Key(b, ParentCommit) in images &&
                       images[Key(b, ParentCommit)].status in {Built, Pushed} && b !in patches;
    }

    method InsertDeveloperPatch(bug: string)
      modifies this`patches
      ensures patches == old(patches) + [bug]
    {
      patches := patches + [bug];
    }
  }

  datatype PollOutcome = Missing | StillRunning | Uninterpretable | Done(ready: bool)

  /** The row that a poll leaves, given the jobs that have finished and whether the report can be had. */
  function PolledRow(row: KCache, jobs: map<string, JobResult>, downloads: bool): KCache {
    if row.job == "" || row.job !in jobs then row
    else Polled(row, jobs[row.job], if downloads then ReportOf(jobs[row.job]) else None)
  }

  /** The row says what the job's result says. */
  predicate Records(result: JobResult, downloads: bool, job: string, row: KCache) {
    && row.job == job && row.evaluation == Some(result.evaluation) && row.storageKey == result.storageKey
    && (row.success <==> result.storageKey.Some? && result.evaluation != CompilationError)
    && row.report == if downloads && result.evaluation == Reproduced then result.report else None
  }

  /** `_poll_single_kcache_build`: `jobs` are the results of the jobs that have finished, `unreadable` the
      other finished jobs, and `downloads` says whether the crash report can be downloaded. */
  method PollSingleKCacheBuild(db: KArenaDB, k: Key, jobs: map<string, JobResult>, unreadable: set<string>,
                               downloads: bool)
    returns (outcome: PollOutcome)
    requires jobs.Keys !! unreadable
    modifies db`kcache
    ensures outcome.Missing? <==> k !in old(db.kcache)
    ensures db.kcache == if k in old(db.kcache)
                         then old(db.kcache)[k := PolledRow(old(db.kcache)[k], jobs, downloads)]
                         else old(db.kcache)
    ensures outcome.StillRunning? <==>
              k in old(db.kcache) && old(db.kcache)[k].job != "" && old(db.kcache)[k].job !in jobs.Keys + unreadable
    ensures outcome.Uninterpretable? <==>
              k in old(db.kcache) && old(db.kcache)[k].job != "" && old(db.kcache)[k].job in unreadable
    ensures outcome.Done? ==> (outcome.ready <==> old(db.kcache)[k].job != "" && db.kcache[k].success)
    ensures outcome.Done? && old(db.kcache)[k].job != "" ==>
              Records(jobs[old(db.kcache)[k].job], downloads, old(db.kcache)[k].job, db.kcache[k])
  {
    if k !in db.kcache {
      return Missing;
    }
    var row := db.kcache[k];
    assert db.kcache[k := row] == db.kcache;
    if row.job == "" {
      return Done(false);
    }
    if row.job in unreadable {
      return Uninterpretable;
    }
    if row.job !in jobs {
      return StillRunning;
    }
    var result := jobs[row.job];
    var report := None;
    if result.evaluation == Reproduced && result.report.Some? && downloads {
      report := result.report;
    }
    var buildFailed := result.evaluation == CompilationError || result.storageKey.None?;
    row := row.(success := !buildFailed, storageKey := result.storageKey,
                evaluation := Some(result.evaluation), report := report);
    db.UpdateKCachePollResult(k, row);
    outcome := Done(!buildFailed);
  }

  /** The row after its build: a failed build leaves the times alone. */
  function Finished(row: Image, push: bool, raised: bool, now: int): Image {
    if raised then Image(Error, row.builtTime, row.pushedTime)
    else if push then Image(Pushed, Some(now), Some(now))
    else Image(Built, Some(now), row.pushedTime)
  }

  /** `drive_one`: build an image unless its row cannot be claimed.  `buildRaises` stands for an
      exception from the builder, the push or the removal of the local copy. */
  method DriveOne(db: KArenaDB, k: Key, push: bool, buildRaises: bool, now: int) returns (claimed: bool)
    modifies db`images
    ensures var b := Builds(old(db.images), map[], map[]);
            var b1 := ApplyBuild(b, Claim(0, k));
            && claimed == (0 in b1.tasks)
            && db.images ==
                 if claimed
                 then ApplyBuild(b1, Mark(0, if buildRaises then BuildRaised else BuildSucceeded(push), now)).images
                 else b1.images
    ensures claimed <==> k in old(db.images) && old(db.images)[k].status == Pending
    ensures db.images.Keys == old(db.images).Keys
    ensures forall j :: j in db.images && (j != k || !claimed) ==> db.images[j] == old(db.images)[j]
    ensures claimed ==> db.images[k] == Finished(old(db.images)[k], push, buildRaises, now)
  {
    claimed := db.ClaimKenvBaseBuild(k);
    if !claimed {
      return;
    }
    if buildRaises {
      db.MarkKenvBaseError(k, now);
    } else {
      db.MarkKenvBaseBuilt(k, push, now);
    }
  }

  // ---------------------------------------------------------------- undisturbed passes

  /** The table only gains rows. */
  ghost predicate Keeps<T>(before: map<Key, T>, after: map<Key, T>) {
    forall k :: k in before ==> k in after && after[k] == before[k]
  }

  /** A submitting pass leaves no bug of the status without a cached build; each new row says whether its
      job was submitted.  `job` is the id that the service gives, or empty. */
  method SubmitKCacheBuilds(db: KArenaDB, status: BugStatus, job: string -> string)
    modifies db`kcache
    ensures status == FixedBug ==>
              forall b :: b in db.bugs && db.bugs[b] == FixedBug ==> Key(b, ParentCommit) in db.kcache
    ensures status == OpenBug ==>
              forall b :: b in db.bugs && db.bugs[b] == OpenBug ==> Key(b, CrashCommit) in db.kcache
    ensures Keeps(old(db.kcache), db.kcache)
    ensures forall k :: k in db.kcache && k !in old(db.kcache) ==>
              && k.bug in db.bugs && db.bugs[k.bug] == status && (k.commit == ParentCommit <==> status == FixedBug)
              && db.kcache[k] == KCache(job(k.bug), job(k.bug) != "", None, None, None)
  {
    var found := db.GetBugsNeedingKCache(status);
    var todo := found;
    while todo != {}
      invariant todo <= found
      invariant Keeps(old(db.kcache), db.kcache)
      invariant forall b :: b in todo ==> Key(b, BaseCommitFor(status)) !in db.kcache
      invariant forall b :: b in found - todo ==> Key(b, BaseCommitFor(status)) in db.kcache
      invariant forall k :: k in db.kcache && k !in old(db.kcache) ==>
                  k == Key(k.bug, BaseCommitFor(status)) && k.bug in found && db.kcache[k] == Submitted(job(k.bug))
      decreases todo
    {
      var b :| b in todo;
      todo := todo - {b};
      var ok := db.InsertKCache(Key(b, BaseCommitFor(status)), job(b));
    }
    forall b | b in db.bugs && db.bugs[b] == status ensures Key(b, BaseCommitFor(status)) in db.kcache {
      assert b in found || Key(b, BaseCommitFor(status)) in old(db.kcache);
    }
  }

  /** A polling pass fills in exactly the selected rows whose jobs have a result; so the rows left awaiting
      a poll are those whose job runs or cannot be interpreted. */
  method PopulateKCacheBuilds(db: KArenaDB, jobs: map<string, JobResult>, unreadable: set<string>, downloads: set<Key>)
    requires jobs.Keys !! unreadable
    modifies db`kcache
    ensures db.kcache.Keys == old(db.kcache).Keys
    ensures forall k :: k in db.kcache ==>
              db.kcache[k] == if AwaitsPoll(old(db.kcache)[k]) then PolledRow(old(db.kcache)[k], jobs, k in downloads)
                              else old(db.kcache)[k]
    ensures forall k :: k in db.kcache && old(db.kcache)[k].success && old(db.kcache)[k].evaluation.None?
                        && old(db.kcache)[k].job in jobs && old(db.kcache)[k].job != "" ==>
              Records(jobs[old(db.kcache)[k].job], k in downloads, old(db.kcache)[k].job, db.kcache[k])
    ensures forall k :: k in db.kcache && AwaitsPoll(db.kcache[k]) ==>
              db.kcache[k].job == "" || db.kcache[k].job !in jobs
  {
    var found := db.GetSubmittedKCacheBuilds();
    var todo := found;
    while todo != {}
      invariant todo <= found && db.kcache.Keys == old(db.kcache).Keys
      invariant forall k :: k in db.kcache ==>
                  db.kcache[k] == if k in found - todo then PolledRow(old(db.kcache)[k], jobs, k in downloads)
                                  else old(db.kcache)[k]
      decreases todo
    {
      var k :| k in todo;
      todo := todo - {k};
      var outcome := PollSingleKCacheBuild(db, k, jobs, unreadable, k in downloads);
    }
  }

  /** A submitting pass leaves no bug that needs an image without one, except those whose commit or mirror
      is not known. */
  method SubmitKenvBaseBuilds(db: KArenaDB, status: BugStatus, unresolved: set<string>)
    modifies db`images
    ensures status == FixedBug ==>
              forall b :: LacksImage(db.bugs, db.kcache, db.images, FixedBug, b, ParentCommit) ==> b in unresolved
    ensures status == OpenBug ==>
              forall b :: LacksImage(db.bugs, db.kcache, db.images, OpenBug, b, CrashCommit) ==> b in unresolved
    ensures Keeps(old(db.images), db.images)
    ensures forall k :: k in db.images && k !in old(db.images) ==>
              && LacksImage(db.bugs, db.kcache, old(db.images), status, k.bug, k.commit)
              && (k.commit == ParentCommit <==> status == FixedBug) && k.bug !in unresolved
              && db.images[k] == Image(Pending, None, None)
  {
    var found := db.GetBugsNeedingKenvBase(status);
    var todo := found;
    while todo != {}
      invariant todo <= found
      invariant Keeps(old(db.images), db.images)
      invariant forall b :: b in todo ==> Key(b, BaseCommitFor(status)) !in db.images
      invariant forall b :: b in found - todo ==> Key(b, BaseCommitFor(status)) in db.images || b in unresolved
      invariant forall k :: k in db.images && k !in old(db.images) ==>
                  k == Key(k.bug, BaseCommitFor(status)) && k.bug in found && k.bug !in unresolved
                  && db.images[k] == Image(Pending, None, None)
      decreases todo
    {
      var b :| b in todo;
      todo := todo - {b};
      if b !in unresolved {
        var ok := db.InsertKenvBase(Key(b, BaseCommitFor(status)));
      }
    }
  }

  /** A building pass finishes every pending row, and touches no other: rows that a crashed builder left in
      state `building` are selected and stay. */
  method PopulateKenvBaseBuilds(db: KArenaDB, push: bool, raises: set<Key>, now: int)
    modifies db`images
    ensures db.images.Keys == old(db.images).Keys
    ensures forall k :: k in db.images && old(db.images)[k].status == Pending ==>
              db.images[k] == Finished(old(db.images)[k], push, k in raises, now)
    ensures forall k :: k in db.images && old(db.images)[k].status != Pending ==> db.images[k] == old(db.images)[k]
  {
    var found := db.GetPendingKenvBaseBuilds();
    var todo := found;
    while todo != {}
      invariant todo <= found && db.images.Keys == old(db.images).Keys
      invariant forall k :: k in db.images && old(db.images)[k].status == Pending && k !in todo ==>
                  db.images[k] == Finished(old(db.images)[k], push, k in raises, now)
      invariant forall k :: k in db.images && (old(db.images)[k].status != Pending || k in todo) ==>
                  db.images[k] == old(db.images)[k]
      decreases todo
    {
      var k :| k in todo;
      todo := todo - {k};
      var claimed := DriveOne(db, k, push, k in raises, now);
    }
  }

  /** The bug is fixed and has a finished image of the parent commit. */
  predicate MayBePatched(bugs: map<string, BugStatus>, images: map<Key, Image>, bug: string) {
    && bug in bugs && bugs[bug] == FixedBug && Key(bug, ParentCommit) in images
    && (images[Key(bug, ParentCommit)].status == Built || images[Key(bug, ParentCommit)].status == Pushed)
  }

  /** An analysing pass leaves no fixed bug with a finished image without a developer patch, except those
      whose analysis fails, and gives no bug a second one. */
  method PopulateDeveloperPatches(db: KArenaDB, failing: set<string>)
    modifies db`patches
    ensures forall b :: MayBePatched(db.bugs, db.images, b) && b !in failing ==> b in db.patches
    ensures old(db.patches) <= db.patches
    ensures forall b :: b in db.patches[|old(db.patches)|..] ==>
              MayBePatched(db.bugs, db.images, b) && b !in old(db.patches) && b !in failing
    ensures Distinct(db.patches[|old(db.patches)|..])
  {
    var found := db.GetBugsNeedingDeveloperPatches();
    var todo := found;
    ghost var added: seq<string> := [];
    while todo != {}
      invariant todo <= found && db.patches == old(db.patches) + added && Distinct(added)
      invariant forall b :: b in added <==> b in found - todo && b !in failing
      decreases todo
    {
      var b :| b in todo;
      todo := todo - {b};
      if b !in failing {
        assert b !in added;
        db.InsertDeveloperPatch(b);
        added := added + [b];
      }
    }
    assert db.patches[|old(db.patches)|..] == added;
  }
}
