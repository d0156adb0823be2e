/** Loading a user's tokens, with a refresh under the lock of the token row.  Identity providers accept
    each refresh token once; the lock is there so that concurrent loads never send one twice. */
module TokenRefresh {
  import opened Prelude

  datatype Tokens = Tokens(access: nat, refresh: nat, accessExpiresAt: int, refreshExpiresAt: int)

  /** Where one call of `load_tokens` stands. */
  datatype Call =
    | Waiting                                   // for the row lock
    | Locked(read: Tokens)                      // the row has been read
    | Refreshed(prior: Tokens, next: Tokens)    // the provider has answered
    | Returned(result: Option<Tokens>)
    | Failed

  /** A login that has read the row, without a lock, and is going to write its tokens. */
  datatype Login = Login(read: Option<Tokens>, next: Tokens)

  /** - `lock`: the call that holds the row lock
      - `issued`: every refresh token the provider has handed out
      - `spent`: the refresh tokens sent to the provider, in order */
  datatype State = State(row: Option<Tokens>, lock: Option<nat>, calls: map<nat, Call>, logins: map<nat, Login>,
                         issued: set<nat>, spent: seq<nat>)

  datatype Event =
    | Begin(c: nat)
    | Lock(c: nat)                              // SELECT ... FOR UPDATE
    | Keep(c: nat)                              // no refresh needed: return what was read
    | Refresh(c: nat, next: Tokens)            // the provider consumes the token and answers
    | Commit(c: nat)                            // the new tokens are written
    | Fail(c: nat)                              // an exception or a crash before a refresh
    | Lose(c: nat)                              // a crash between the provider's answer and the commit
    | StoreRead(l: nat, next: Tokens)           // a login with new tokens reads the row
    | StoreWrite(l: nat)                        // ... and updates or inserts it
    | StoreFails(l: nat)

  function Phase(s: State, c: nat): Call {
    if c in s.calls then s.calls[c] else Failed
  }

  /** `lossy` allows a crash between a refresh and its commit. */
  predicate Enabled(s: State, e: Event, lossy: bool) {
    match e
    case Begin(c) => c !in s.calls
    case Lock(c) => Phase(s, c) == Waiting && s.lock == None
    case Keep(c) => Phase(s, c).Locked?
    case Refresh(c, next) => Phase(s, c).Locked? && next.refresh !in s.issued
    case Commit(c) => Phase(s, c).Refreshed?
    case Fail(c) => Phase(s, c).Waiting? || Phase(s, c).Locked?
    case Lose(c) => lossy && Phase(s, c).Refreshed?
    case StoreRead(l, next) => l !in s.logins && next.refresh !in s.issued
    case StoreWrite(l) => l in s.logins && s.lock == None && (s.logins[l].read.None? ==> s.row.None?)
    case StoreFails(l) => l in s.logins
  }

  function Unlocked(s: State, c: nat): Option<nat> {
    if s.lock == Some(c) then None else s.lock
  }

  /** What a login writes: of a row that it has read, only the columns in which its tokens differ. */
  function Merged(row: Option<Tokens>, login: Login): Tokens {
    if row.None? || login.read.None? then login.next
    else
      var (current, read, next) := (row.value, login.read.value, login.next);
      Tokens(if next.access != read.access then next.access else current.access,
             if next.refresh != read.refresh then next.refresh else current.refresh,
             if next.accessExpiresAt != read.accessExpiresAt then next.accessExpiresAt else current.accessExpiresAt,
             if next.refreshExpiresAt != read.refreshExpiresAt then next.refreshExpiresAt else current.refreshExpiresAt)
  }

  function Apply(s: State, e: Event): State {
    match e
    case Begin(c) => s.(calls := s.calls[c := Waiting])
    case Lock(c) =>
      if s.row.None? then s.(calls := s.calls[c := Returned(None)])
      else s.(lock := Some(c), calls := s.calls[c := Locked(s.row.value)])
    case Keep(c) =>
      if Phase(s, c).Locked?
      then s.(lock := Unlocked(s, c), calls := s.calls[c := Returned(Some(s.calls[c].read))])
      else s
    case Refresh(c, next) =>
      if Phase(s, c).Locked?
      then s.(calls := s.calls[c := Refreshed(s.calls[c].read, next)], issued := s.issued + {next.refresh},
              spent := s.spent + [s.calls[c].read.refresh])
      else s
    case Commit(c) =>
      if Phase(s, c).Refreshed?
      then s.(row := Some(s.calls[c].next), lock := Unlocked(s, c),
              calls := s.calls[c := Returned(Some(s.calls[c].next))])
      else s
    case Fail(c) => s.(lock := Unlocked(s, c), calls := s.calls[c := Failed])
    case Lose(c) => s.(lock := Unlocked(s, c), calls := s.calls[c := Failed])
    case StoreRead(l, next) =>
      s.(logins := s.logins[l := Login(s.row, next)], issued := s.issued + {next.refresh})
    case StoreWrite(l) =>
      if l in s.logins then s.(row := Some(Merged(s.row, s.logins[l])), logins := s.logins - {l}) else s
    case StoreFails(l) => s.(logins := s.logins - {l})
  }

  predicate Init(s: State) {
    && s.lock == None && s.calls == map[] && s.logins == map[] && s.spent == []
    && (s.row.Some? ==> s.row.value.refresh in s.issued)
  }

  /** `states` is what the store goes through when `events` happen in order. */
  ghost predicate IsRun(states: seq<State>, events: seq<Event>, lossy: bool) {
    && |states| == |events| + 1 && Init(states[0])
    && forall i :: 0 <= i < |events| ==> IsStep(states, events, i, lossy)
  }

  ghost predicate IsStep(states: seq<State>, events: seq<Event>, i: nat, lossy: bool)
    requires i < |events| < |states|
  {
    Enabled(states[i], events[i], lossy) && states[i + 1] == Apply(states[i], events[i])
  }

  /** The part of the invariant that no lost answer disturbs: only the lock holder is past reading, and
      what it read is still in the row. */
  ghost predicate LockInv(s: State) {
    && (forall c :: c in s.calls && (s.calls[c].Locked? || s.calls[c].Refreshed?) ==> s.lock == Some(c))
    && (s.lock.Some? ==> s.row.Some? && HolderRead(s, s.lock.value))
  }

  predicate HolderRead(s: State, c: nat)
    requires s.row.Some?
  {
    match Phase(s, c)
    case Locked(read) => read == s.row.value
    case Refreshed(prior, _) => prior == s.row.value
    case _ => false
  }

  lemma StepKeepsLockInv(s: State, e: Event)
    requires LockInv(s) && Enabled(s, e, true)
    ensures LockInv(Apply(s, e))
  {
  }

  lemma {:induction false} RunKeepsLockInv(states: seq<State>, events: seq<Event>, i: nat, lossy: bool)
    requires IsRun(states, events, lossy) && i < |states|
    ensures LockInv(states[i])
  {
    if i > 0 {
      RunKeepsLockInv(states, events, i - 1, lossy);
      assert IsStep(states, events, i - 1, lossy);
      StepKeepsLockInv(states[i - 1], events[i - 1]);
    }
  }

  /** Every call that returns returns what is in the row at the moment it gives up the lock, whatever
      answers were lost before. */
  lemma ReturnsTheRow(states: seq<State>, events: seq<Event>, i: nat, c: nat, lossy: bool)
    requires IsRun(states, events, lossy) && i < |events|
    requires !Phase(states[i], c).Returned? && Phase(states[i + 1], c).Returned?
    ensures states[i + 1].calls[c].result == states[i + 1].row
    ensures states[i + 1].lock != Some(c)
  {
    RunKeepsLockInv(states, events, i, lossy);
    assert IsStep(states, events, i, lossy);
  }

  // ---------------------------------------------------------------- which runs send a token twice

  /** An answer is lost at step `i`, and the next token is sent at step `j` without a login writing in between. */
  predicate LostThenSent(events: seq<Event>, i: nat, j: nat) {
    && i < j < |events| && events[i].Lose? && events[j].Refresh?
    && forall m :: i < m < j ==> !events[m].StoreWrite?
  }

  /** Since the last lost answer no login has written the row. */
  ghost predicate Dangling(events: seq<Event>, k: nat)
    requires k <= |events|
  {
    exists i :: 0 <= i < k && events[i].Lose? && forall m :: i < m < k ==> !events[m].StoreWrite?
  }

  /** The login's token is new: neither sent, nor in the row, nor read, nor about to be written by a call. */
  predicate NewLogin(s: State, login: Login) {
    && login.next.refresh in s.issued && login.next.refresh !in s.spent
    && (s.row.Some? ==> s.row.value.refresh != login.next.refresh)
    && (login.read.Some? ==> login.read.value.refresh != login.next.refresh)
    && (s.lock.Some? && Phase(s, s.lock.value).Refreshed? ==>
          Phase(s, s.lock.value).next.refresh != login.next.refresh)
  }

  /** The invariant of a run in which nothing has been sent after a lost answer: no token was sent twice,
      and the row's token is unsent unless its successor is about to be written or was lost. */
  ghost predicate CleanInv(s: State, dangling: bool) {
    && LockInv(s)
    && (s.lock.Some? ==> PendingIsFresh(s, s.lock.value))
    && (s.row.Some? ==> s.row.value.refresh in s.issued)
    && (forall l :: l in s.logins ==> NewLogin(s, s.logins[l]))
    && (forall l, m :: l in s.logins && m in s.logins && l != m ==>
                         s.logins[l].next.refresh != s.logins[m].next.refresh)
    && (forall t :: t in s.spent ==> t in s.issued)
    && Distinct(s.spent)
    && (s.row.Some? && s.row.value.refresh in s.spent ==>
          dangling || (s.lock.Some? && Phase(s, s.lock.value).Refreshed?))
  }

  predicate PendingIsFresh(s: State, c: nat) {
    Phase(s, c).Refreshed? ==> Phase(s, c).next.refresh in s.issued && Phase(s, c).next.refresh !in s.spent
  }

  lemma StepKeepsCleanInv(s: State, e: Event, dangling: bool)
    requires CleanInv(s, dangling) && Enabled(s, e, true) && !(dangling && e.Refresh?)
    ensures CleanInv(Apply(s, e), if e.StoreWrite? then false else dangling || e.Lose?)
  {
  }

  lemma DanglingStep(events: seq<Event>, k: nat)
    requires k < |events|
    ensures Dangling(events, k + 1) <==> events[k].Lose? || (Dangling(events, k) && !events[k].StoreWrite?)
  {
    if Dangling(events, k + 1) {
      var i :| 0 <= i < k + 1 && events[i].Lose? && forall m :: i < m < k + 1 ==> !events[m].StoreWrite?;
      assert i < k ==> Dangling(events, k);
    }
    if events[k].Lose? { assert 0 <= k < k + 1 && events[k].Lose?; }
    if Dangling(events, k) && !events[k].StoreWrite? {
      var i :| 0 <= i < k && events[i].Lose? && forall m :: i < m < k ==> !events[m].StoreWrite?;
      assert 0 <= i < k + 1 && events[i].Lose?;
    }
  }

  lemma {:induction false} RunIsClean(states: seq<State>, events: seq<Event>, k: nat)
    requires IsRun(states, events, true) && k < |states|
    requires forall i, j :: 0 <= i < j < k ==> !LostThenSent(events, i, j)
    ensures CleanInv(states[k], Dangling(events, k))
  {
    if k > 0 {
      RunIsClean(states, events, k - 1);
      assert IsStep(states, events, k - 1, true);
      if Dangling(events, k - 1) {
        var i :| 0 <= i < k - 1 && events[i].Lose? && forall m :: i < m < k - 1 ==> !events[m].StoreWrite?;
        assert !LostThenSent(events, i, k - 1);
      }
      DanglingStep(events, k - 1);
      StepKeepsCleanInv(states[k - 1], events[k - 1], Dangling(events, k - 1));
    }
  }

  /** After a lost answer, and until a login or the next answer, the row holds a token that was sent. */
  ghost predicate HoldsSpent(s: State) {
    && s.row.Some? && s.row.value.refresh in s.spent
    && forall c :: c in s.calls ==> !s.calls[c].Refreshed?
  }

  lemma {:induction false} SpentRowStays(states: seq<State>, events: seq<Event>, i: nat, k: nat)
    requires IsRun(states, events, true) && i < k <= |events| && events[i].Lose?
    requires SentIsRecorded(states[i])
    requires forall m :: i < m < k ==> !events[m].StoreWrite? && !events[m].Refresh?
    ensures HoldsSpent(states[k])
    decreases k
  {
    RunKeepsLockInv(states, events, k - 1, true);
    assert IsStep(states, events, k - 1, true);
    if i + 1 < k { SpentRowStays(states, events, i, k - 1); }
  }

  /** A call that has its answer has sent what it read. */
  ghost predicate SentIsRecorded(s: State) {
    forall c :: c in s.calls && s.calls[c].Refreshed? ==> s.calls[c].prior.refresh in s.spent
  }

  lemma {:induction false} RunRecords(states: seq<State>, events: seq<Event>, k: nat)
    requires IsRun(states, events, true) && k < |states|
    ensures SentIsRecorded(states[k])
  {
    if k > 0 {
      RunRecords(states, events, k - 1);
      assert IsStep(states, events, k - 1, true);
    }
  }

  lemma {:induction false} SpentGrows(states: seq<State>, events: seq<Event>, j: nat, k: nat)
    requires IsRun(states, events, true) && j <= k < |states|
    ensures states[j].spent <= states[k].spent
    decreases k
  {
    if j < k {
      SpentGrows(states, events, j, k - 1);
      assert IsStep(states, events, k - 1, true);
    }
  }

  lemma {:induction false} LostThenSentTwice(states: seq<State>, events: seq<Event>, i: nat, j: nat)
    requires IsRun(states, events, true) && LostThenSent(events, i, j)
    ensures !Distinct(states[|events|].spent)
    decreases j
  {
    if m :| i < m < j && events[m].Refresh? {
      LostThenSentTwice(states, events, i, m);
    } else {
      RunRecords(states, events, i);
      SpentRowStays(states, events, i, j);
      RunKeepsLockInv(states, events, j, true);
      assert IsStep(states, events, j, true);
      var before, after := states[j].spent, states[j + 1].spent;
      var x :| 0 <= x < |before| && before[x] == states[j].row.value.refresh;
      assert after[x] == after[|before|];
      SpentGrows(states, events, j + 1, |events|);
      assert states[|events|].spent[x] == states[|events|].spent[|before|];
    }
  }

  /** Exactly which runs send a token twice: those where, after a lost answer, a token is sent before any
      login has replaced the row. */
  lemma SentTwiceIff(states: seq<State>, events: seq<Event>)
    requires IsRun(states, events, true)
    ensures !Distinct(states[|events|].spent) <==> exists i, j :: LostThenSent(events, i, j)
  {
    if i: nat, j: nat :| LostThenSent(events, i, j) {
      LostThenSentTwice(states, events, i, j);
    } else {
      RunIsClean(states, events, |events|);
    }
  }

  ghost predicate SingleUse(lossy: bool) {
    forall states: seq<State>, events: seq<Event>, i :: IsRun(states, events, lossy) && 0 <= i < |states| ==>
        Distinct(states[i].spent)
  }

  lemma Extend(states: seq<State>, events: seq<Event>, e: Event, s: State, lossy: bool)
    requires IsRun(states, events, lossy) && Enabled(states[|events|], e, lossy) && s == Apply(states[|events|], e)
    ensures IsRun(states + [s], events + [e], lossy)
  {
    var states', events' := states + [s], events + [e];
    forall i | 0 <= i < |events'| ensures IsStep(states', events', i, lossy) {
      if i < |events| { assert IsStep(states, events, i, lossy); }
    }
  }

  /** A call takes the lock and sends the token of the row; nobody else is around. */
  lemma SendOnce(states: seq<State>, events: seq<Event>, c: nat, next: Tokens)
    requires IsRun(states, events, true)
    requires var s := states[|events|]; c !in s.calls && s.lock.None? && s.row.Some? && next.refresh !in s.issued
    ensures exists states' ::
      && IsRun(states', events + [Begin(c), Lock(c), Refresh(c, next)], true)
      && var (s, s') := (states[|events|], states'[|events| + 3]);
         s' == State(s.row, Some(c), s.calls[c := Refreshed(s.row.value, next)], s.logins,
                     s.issued + {next.refresh}, s.spent + [s.row.value.refresh])
  {
    var s := states[|events|];
    var s1 := Apply(s, Begin(c));
    var s2 := Apply(s1, Lock(c));
    var s3 := Apply(s2, Refresh(c, next));
    Extend(states, events, Begin(c), s1, true);
    Extend(states + [s1], events + [Begin(c)], Lock(c), s2, true);
    Extend(states + [s1] + [s2], events + [Begin(c)] + [Lock(c)], Refresh(c, next), s3, true);
    assert events + [Begin(c)] + [Lock(c)] + [Refresh(c, next)] == events + [Begin(c), Lock(c), Refresh(c, next)];
    assert s3.calls == s.calls[c := Refreshed(s.row.value, next)];
    var states' := states + [s1] + [s2] + [s3];
    assert states'[|events| + 3] == s3;
  }

  /** Losing an answer makes the next call send the same token again. */
  lemma LostAnswerSpendsTwice()
    ensures !SingleUse(true)
  {
    var first, second, third := Tokens(0, 1, 0, 0), Tokens(0, 2, 0, 0), Tokens(0, 3, 0, 0);
    var s0 := State(Some(first), None, map[], map[], {1}, []);
    assert IsRun([s0], [], true);
    SendOnce([s0], [], 0, second);
    var sent := [] + [Begin(0), Lock(0), Refresh(0, second)];
    var states: seq<State> :| IsRun(states, sent, true)
      && states[3] == State(Some(first), Some(0), map[0 := Refreshed(first, second)], map[], {1, 2}, [1]);
    var s4 := Apply(states[3], Lose(0));
    Extend(states, sent, Lose(0), s4, true);
    SendOnce(states + [s4], sent + [Lose(0)], 1, third);
    var events := sent + [Lose(0)] + [Begin(1), Lock(1), Refresh(1, third)];
    var states' :| IsRun(states', events, true);
    assert LostThenSent(events, 3, 6);
    LostThenSentTwice(states', events, 3, 6);
  }

  lemma LosslessIsRun(states: seq<State>, events: seq<Event>)
    requires IsRun(states, events, false)
    ensures IsRun(states, events, true) && forall i :: 0 <= i < |events| ==> !events[i].Lose?
  {
    forall i | 0 <= i < |events| ensures IsStep(states, events, i, true) && !events[i].Lose? {
      assert IsStep(states, events, i, false);
    }
  }

  /** No refresh token is ever sent twice, over every interleaving of any number of loads and logins,
      exactly if no crash can fall between the provider's answer and the commit. */
  lemma SingleUseIff(lossy: bool)
    ensures SingleUse(lossy) <==> !lossy
  {
    if lossy {
      LostAnswerSpendsTwice();
    } else {
      forall states: seq<State>, events: seq<Event>, i | IsRun(states, events, false) && 0 <= i < |states|
          ensures Distinct(states[i].spent) {
        LosslessIsRun(states, events);
        RunIsClean(states, events, i);
      }
    }
  }

  // ---------------------------------------------------------------- what a login leaves

  /** A column of the row is the login's unless somebody else changed it to another value while the login
      read and wrote the same one. */
  predicate ColumnIsWhole(current: int, read: int, next: int) { next != read || current == next }

  /** A login's tokens are stored whole if and only if no column that it leaves alone, because it read the
      value that it would write, was changed in between. */
  lemma LoginIsWholeIff(s: State, l: nat)
    requires Enabled(s, StoreWrite(l), true)
    ensures Apply(s, StoreWrite(l)).row == Some(s.logins[l].next) <==>
            s.row.None? || s.logins[l].read.None? ||
            var (current, read, next) := (s.row.value, s.logins[l].read.value, s.logins[l].next);
            && ColumnIsWhole(current.access, read.access, next.access)
            && ColumnIsWhole(current.refresh, read.refresh, next.refresh)
            && ColumnIsWhole(current.accessExpiresAt, read.accessExpiresAt, next.accessExpiresAt)
            && ColumnIsWhole(current.refreshExpiresAt, read.refreshExpiresAt, next.refreshExpiresAt)
  {
  }

  /** For instance, a refresh that commits between the read and the write leaves its expiry time with the
      login's tokens. */
  lemma MixedLogin()
    ensures exists states: seq<State>, events ::
      && IsRun(states, events, true) && |events| == 6 && events[0] == StoreRead(0, Tokens(3, 3, 10, 20))
      && events[5] == StoreWrite(0) && states[6].row == Some(Tokens(3, 3, 15, 20))
  {
    var old', login, next := Tokens(1, 1, 10, 20), Tokens(3, 3, 10, 20), Tokens(2, 2, 15, 20);
    var s0 := State(Some(old'), None, map[], map[], {1}, []);
    assert IsRun([s0], [], true);
    var read := StoreRead(0, login);
    var s1 := State(Some(old'), None, map[], map[0 := Login(Some(old'), login)], {1, 3}, []);
    Extend([s0], [], read, s1, true);
    SendOnce([s0] + [s1], [] + [read], 0, next);
    var sent := [] + [read] + [Begin(0), Lock(0), Refresh(0, next)];
    var states: seq<State> :| IsRun(states, sent, true)
      && states[4] == State(s1.row, Some(0), s1.calls[0 := Refreshed(old', next)], s1.logins,
                            s1.issued + {2}, [] + [1]);
    var s5 := Apply(states[4], Commit(0));
    Extend(states, sent, Commit(0), s5, true);
    var s6 := Apply(s5, StoreWrite(0));
    Extend(states + [s5], sent + [Commit(0)], StoreWrite(0), s6, true);
    var (run, events) := (states + [s5] + [s6], sent + [Commit(0)] + [StoreWrite(0)]);
    assert IsRun(run, events, true) && events[0] == read && events[5] == StoreWrite(0);
    assert s6.row == Some(Tokens(3, 3, 15, 20));
  }

  // ---------------------------------------------------------------- the store

  /** What the expiration check decides; a refresh comes with the tokens to store. */
  datatype Check = NoRefresh | NewTokens(next: Tokens) | CheckRaises

  class AuthTokenStore {
    var row: Option<Tokens>

    constructor (row: Option<Tokens>)
      ensures this.row == row
    {
      this.row := row;
    }

    /** The two halves of `store_tokens`: the read takes no lock, so the row may change in between. */
    method ReadForStore() returns (read: Option<Tokens>)
      ensures read == row
    {
      read := row;
    }

    method WriteStore(read: Option<Tokens>, next: Tokens)
      requires read.None? ==> row.None?
      modifies this
      ensures row == Some(Merged(old(row), Login(read, next)))
    {
      if read.None? || row.None? {
        row := Some(next);
        return;
      }
      var record := row.value;
      if next.access != read.value.access {
        record := record.(access := next.access);
      }
      if next.refresh != read.value.refresh {
        record := record.(refresh := next.refresh);
      }
      if next.accessExpiresAt != read.value.accessExpiresAt {
        record := record.(accessExpiresAt := next.accessExpiresAt);
      }
      if next.refreshExpiresAt != read.value.refreshExpiresAt {
        record := record.(refreshExpiresAt := next.refreshExpiresAt);
      }
      row := Some(record);
    }

    /** Without a write in between, the row holds exactly the new tokens, whether it existed or not. */
    method StoreTokens(next: Tokens)
      modifies this
      ensures row == Some(next)
    {
      var read := ReadForStore();
      WriteStore(read, next);
    }

    /** One call while the row is locked: it goes through the phases of the protocol, and nothing else
        touches the row meanwhile. */
    method LoadTokens(check: Check) returns (result: Result<Option<Tokens>, string>, ghost spent: seq<nat>)
      modifies this
      ensures var s0 := State(old(row), None, map[0 := Waiting], map[], {}, []);
              var s1 := Apply(s0, Lock(0));
              var s2 := if old(row).None? then s1 else match check {
                case NoRefresh => Apply(s1, Keep(0))
                case NewTokens(next) => Apply(Apply(s1, Refresh(0, next)), Commit(0))
                case CheckRaises => Apply(s1, Fail(0))
              };
              && row == s2.row && spent == s2.spent
              && (result.Success? <==> s2.calls[0].Returned?)
              && (result.Success? ==> result.value == s2.calls[0].result)
      ensures old(row).None? ==> row.None? && result == Success(None) && spent == []
      ensures old(row).Some? ==>
                match check
                case NoRefresh => row == old(row) && result == Success(row) && spent == []
                case NewTokens(next) =>
                  row == Some(next) && result == Success(row) && spent == [old(row).value.refresh]
                case CheckRaises => row == old(row) && result.Failure? && spent == []
    {
      spent := [];
      if row.None? {
        return Success(None), [];
      }
      var record := row.value;
      match check
      case CheckRaises =>
        result := Failure("refresh failed");
      case NoRefresh =>
        result := Success(Some(record));
      case NewTokens(next) =>
        spent := [record.refresh];
        row := Some(record.(access := next.access, refresh := next.refresh,
                            accessExpiresAt := next.accessExpiresAt, refreshExpiresAt := next.refreshExpiresAt));
        result := Success(Some(next));
    }
  }
}
