/** Starting a conversation about a commit whose workflows have failed: every delivery of a workflow
    run is merged into the stored map of runs, and the map is handed back once, when all runs have
    ended and some have failed. */
module ConversationStarter {
  import opened Prelude

  datatype RunStatus = FailedRun | CompletedRun | PendingRun

  type Group = map<string, RunStatus>

  /** `all` is what the provider lists when the commit is seen for the first time. */
  datatype Delivery = Delivery(id: string, status: RunStatus, all: Group)

  datatype Entry = Entry(runs: Group, sent: bool)

  predicate Ready(g: Group) {
    && (forall id :: id in g ==> g[id] != PendingRun)
    && (exists id :: id in g && g[id] == FailedRun)
  }

  /** One delivery: the new entry, and the group to start a conversation with. */
  function Deliver(entry: Option<Entry>, d: Delivery): (Option<Entry>, Option<Group>) {
    if entry.Some? && entry.value.sent then (entry, None)
    else
      var g := (if entry.Some? then entry.value.runs else d.all)[d.id := d.status];
      (Some(Entry(g, Ready(g))), if Ready(g) then Some(g) else None)
  }

  // ---------------------------------------------------------------- any sequence of deliveries

  function After(ds: seq<Delivery>, k: nat): Option<Entry>
    requires k <= |ds|
  {
    if k == 0 then None else Deliver(After(ds, k - 1), ds[k - 1]).0
  }

  /** What delivery `k` hands back. */
  function Result(ds: seq<Delivery>, k: nat): Option<Group>
    requires k < |ds|
  {
    Deliver(After(ds, k), ds[k]).1
  }

  /** All of the first `k` deliveries merged into what the provider listed at the first one. */
  function Merged(ds: seq<Delivery>, k: nat): Group
    requires 0 < k <= |ds|
  {
    (if k == 1 then ds[0].all else Merged(ds, k - 1))[ds[k - 1].id := ds[k - 1].status]
  }

  /** Once delivery `k` is merged no run is pending and some run has failed. */
  predicate ReadyAt(ds: seq<Delivery>, k: nat)
    requires k < |ds|
  {
    var g := Merged(ds, k + 1);
    (exists id :: id in g && g[id] == FailedRun) && forall id :: id in g ==> g[id] == FailedRun || g[id] == CompletedRun
  }

  predicate FirstReady(ds: seq<Delivery>, k: nat)
    requires k < |ds|
  {
    ReadyAt(ds, k) && forall j :: 0 <= j < k ==> !ReadyAt(ds, j)
  }

  /** The stored entry is the merge of every delivery up to the first ready one, and no later one. */
  lemma {:induction false} EntryIsMerge(ds: seq<Delivery>, k: nat)
    requires 0 < k <= |ds|
    ensures After(ds, k).Some?
    ensures After(ds, k).value.sent <==> exists j :: 0 <= j < k && ReadyAt(ds, j)
    ensures !After(ds, k).value.sent ==> After(ds, k).value.runs == Merged(ds, k)
    ensures forall j :: 0 <= j < k && FirstReady(ds, j) ==> After(ds, k).value.runs == Merged(ds, j + 1)
  {
    assert k == 1 ==> After(ds, 0).None?;
    if k > 1 { EntryIsMerge(ds, k - 1); }
    assert ReadyAt(ds, k - 1) <==> Ready(Merged(ds, k));
  }

  /** A group is handed back at exactly the first delivery that makes the merge of all deliveries so
      far ready, it is that merge, and so it happens at most once. */
  lemma StarterIsSentOnce(ds: seq<Delivery>, k: nat)
    requires k < |ds|
    ensures Result(ds, k) == if FirstReady(ds, k) then Some(Merged(ds, k + 1)) else None
    ensures forall j :: 0 <= j < |ds| && j != k && Result(ds, k).Some? ==> Result(ds, j).None?
  {
    ResultIsMerge(ds, k);
    forall j | 0 <= j < |ds| && j != k && Result(ds, k).Some? ensures Result(ds, j).None? {
      ResultIsMerge(ds, j);
      assert FirstReady(ds, k);
    }
  }

  lemma ResultIsMerge(ds: seq<Delivery>, k: nat)
    requires k < |ds|
    ensures Result(ds, k) == if FirstReady(ds, k) then Some(Merged(ds, k + 1)) else None
  {
    if k > 0 { EntryIsMerge(ds, k); }
    assert ReadyAt(ds, k) <==> Ready(Merged(ds, k + 1));
  }

  // ---------------------------------------------------------------- many commits at once

  datatype CommitKey = CommitKey(repo: string, pr: int, commit: string)

  function Lookup(entries: map<CommitKey, Entry>, key: CommitKey): Option<Entry> {
    if key in entries then Some(entries[key]) else None
  }

  function StoreAfter(es: seq<(CommitKey, Delivery)>): map<CommitKey, Entry> {
    if es == [] then map[]
    else
      var (key, d) := es[|es| - 1];
      var before := StoreAfter(es[..|es| - 1]);
      var (entry, _) := Deliver(Lookup(before, key), d);
      if entry.Some? then before[key := entry.value] else before
  }

  function DeliveriesOf(es: seq<(CommitKey, Delivery)>, key: CommitKey): seq<Delivery> {
    if es == [] then []
    else
      DeliveriesOf(es[..|es| - 1], key) + if es[|es| - 1].0 == key then [es[|es| - 1].1] else []
  }

  lemma {:induction false} AfterPrefix(ds: seq<Delivery>, d: Delivery, k: nat)
    requires k <= |ds|
    ensures After(ds + [d], k) == After(ds, k)
  {
    if k > 0 { AfterPrefix(ds, d, k - 1); }
  }

  /** Commits do not disturb each other: however their deliveries interleave, each one's entry is what
      its own deliveries alone produce, so what holds of one commit's deliveries holds in the store. */
  lemma {:induction false} CommitsAreIndependent(es: seq<(CommitKey, Delivery)>, key: CommitKey)
    ensures var own := DeliveriesOf(es, key);
            Lookup(StoreAfter(es), key) == After(own, |own|)
  {
    if es != [] {
      var before := DeliveriesOf(es[..|es| - 1], key);
      CommitsAreIndependent(es[..|es| - 1], key);
      AfterPrefix(before, es[|es| - 1].1, |before|);
      assert es[|es| - 1].0 != key ==> DeliveriesOf(es, key) == before;
      assert es[|es| - 1].0 == key ==> DeliveriesOf(es, key)[..|before|] == before;
    }
  }

  // ---------------------------------------------------------------- the store

  class ProactiveConversationStore {
    var entries: map<CommitKey, Entry>

    constructor ()
      ensures entries == map[]
    {
      entries := map[];
    }

    method StoreWorkflowInformation(key: CommitKey, d: Delivery) returns (group: Option<Group>)
      modifies this
      ensures var (entry, result) := Deliver(Lookup(old(entries), key), d);
              && group == result
              && entry.Some? && entries == old(entries)[key := entry.value]
    {
      group := None;
      if key in entries && entries[key].sent {
        assert entries == entries[key := entries[key]];
        return;
      }
      var runs := if key in entries then entries[key].runs else d.all;
      runs := runs[d.id := d.status];
      var todo, nonePending, anyFailed := runs.Keys, true, false;
      while todo != {}
        invariant todo <= runs.Keys
        invariant nonePending <==> forall id :: id in runs.Keys - todo ==> runs[id] != PendingRun
        invariant anyFailed <==> exists id :: id in runs.Keys - todo && runs[id] == FailedRun
        decreases todo
      {
        var id :| id in todo;
        nonePending := nonePending && runs[id] != PendingRun;
        anyFailed := anyFailed || runs[id] == FailedRun;
        todo := todo - {id};
      }
      var shouldSend := nonePending && anyFailed;
      if shouldSend {
        group := Some(runs);
      }
      entries := entries[key := Entry(runs, shouldSend)];
    }
  }
}
