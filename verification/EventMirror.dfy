/** Copying a nested conversation's events to the local file store by polling.  A poll finds the first id
    without a file, reads from there page by page, and for each event writes a file and then processes
    it; it can be cut off at any point, and the next poll starts over from the files. */
module EventMirror {
  import opened Prelude
  import Text

  // ---------------------------------------------------------------- file names

  function EventsDir(sid: string, user: Option<string>): string {
    if user.Some? && user.value != "" then "users/" + user.value + "/conversations/" + sid + "/events/"
    else "sessions/" + sid + "/events/"
  }

  function Digit(d: nat): char
    requires d < 10
  {
    ('0' as int + d) as char
  }

  function Decimal(n: nat): string {
    if n < 10 then [Digit(n)] else Decimal(n / 10) + [Digit(n % 10)]
  }

  function FileName(dir: string, id: nat): string {
    dir + Decimal(id) + ".json"
  }

  function AfterLast(s: string, c: char): string {
    if c !in s then s else AfterLast(s[1..], c)
  }

  function BeforeFirst(s: string, c: char): string {
    if s == [] || s[0] == c then [] else [s[0]] + BeforeFirst(s[1..], c)
  }

  /** Digits, with single underscores allowed between them. */
  function Digits(s: string): Option<nat> {
    if s == [] || !('0' <= s[|s| - 1] <= '9') then None
    else
      var d := s[|s| - 1] as int - '0' as int;
      if |s| == 1 then Some(d)
      else
        var rest := Digits(s[..if s[|s| - 2] == '_' then |s| - 2 else |s| - 1]);
        if rest.None? then None else Some(10 * rest.value + d)
  }

  function Signed(sign: int, digits: Option<nat>): Option<int> {
    match digits
    case None => None
    case Some(v) => Some(sign * v)
  }

  function ParseInt(s: string): Option<int> {
    var t := Text.Strip(s);
    if t != [] && t[0] == '-' then Signed(-1, Digits(t[1..]))
    else if t != [] && t[0] == '+' then Signed(1, Digits(t[1..]))
    else Signed(1, Digits(t))
  }

  function IdFromFileName(name: string): int {
    var id := ParseInt(BeforeFirst(AfterLast(name, '/'), '.'));
    if id.None? then -1 else id.value
  }

  lemma {:induction false} DecimalParses(n: nat)
    ensures Decimal(n) != [] && forall c :: c in Decimal(n) ==> '0' <= c <= '9'
    ensures Digits(Decimal(n)) == Some(n)
  {
    if n >= 10 {
      DecimalParses(n / 10);
      assert Decimal(n)[..|Decimal(n)| - 1] == Decimal(n / 10);
      assert Decimal(n)[|Decimal(n)| - 2] in Decimal(n / 10);
    }
  }

  lemma {:induction false} AfterLastOf(a: string, b: string, c: char)
    requires a != [] && a[|a| - 1] == c && c !in b
    ensures AfterLast(a + b, c) == b
  {
    assert (a + b)[|a| - 1] == c;
    assert (a + b)[1..] == a[1..] + b;
    if |a| > 1 { AfterLastOf(a[1..], b, c); }
  }

  lemma {:induction false} BeforeFirstOf(a: string, b: string, c: char)
    requires c !in a && b != [] && b[0] == c
    ensures BeforeFirst(a + b, c) == a
  {
    if a == [] {
      assert a + b == b;
    } else {
      assert (a + b)[1..] == a[1..] + b;
      BeforeFirstOf(a[1..], b, c);
    }
  }

  predicate IsDir(dir: string) { dir != [] && dir[|dir| - 1] == '/' }

  lemma EventsDirIsDir(sid: string, user: Option<string>)
    ensures IsDir(EventsDir(sid, user))
  {
  }

  lemma SplitsOnce(a: string, b: string, c: string, d: string)
    requires a + "/" + b == c + "/" + d && '/' !in a && '/' !in c
    ensures a == c && b == d
  {
    var text := a + "/" + b;
    assert text[|a|] == '/' && forall k :: 0 <= k < |a| ==> text[k] == a[k] != '/';
    assert text[|c|] == '/' && forall k :: 0 <= k < |c| ==> text[k] == c[k] != '/';
    assert a == text[..|a|] && c == text[..|c|];
    assert b == text[|a| + 1..] && d == text[|c| + 1..];
  }

  /** An empty user is none. */
  function Owner(user: Option<string>): string {
    match user case None => "" case Some(u) => u
  }

  lemma OwnedDir(sid: string, user: Option<string>)
    requires Owner(user) != ""
    ensures EventsDir(sid, user) == "users" + "/" + (Owner(user) + "/" + ("conversations/" + (sid + "/" + "events/")))
  {
    assert "users/" == "users" + "/" && "/conversations/" == "/" + "conversations/" && "/events/" == "/" + "events/";
  }

  lemma SharedDir(sid: string, user: Option<string>)
    requires Owner(user) == ""
    ensures EventsDir(sid, user) == "sessions" + "/" + (sid + "/" + "events/")
  {
  }

  /** Two conversations never share a directory, nor do two users one for the same conversation id. */
  lemma EventsDirsDiffer(sid: string, user: Option<string>, sid': string, user': Option<string>)
    requires '/' !in sid && '/' !in sid' && '/' !in Owner(user) && '/' !in Owner(user')
    requires EventsDir(sid, user) == EventsDir(sid', user')
    ensures sid == sid' && Owner(user) == Owner(user')
  {
    if Owner(user) == "" { SharedDir(sid, user); } else { OwnedDir(sid, user); }
    if Owner(user') == "" { SharedDir(sid', user'); } else { OwnedDir(sid', user'); }
    assert EventsDir(sid, user)[0] == if Owner(user) == "" then 's' else 'u';
    assert EventsDir(sid', user')[0] == if Owner(user') == "" then 's' else 'u';
    if Owner(user) != "" && Owner(user') != "" {
      var rest, rest' := "conversations/" + (sid + "/" + "events/"), "conversations/" + (sid' + "/" + "events/");
      SplitsOnce("users", Owner(user) + "/" + rest, "users", Owner(user') + "/" + rest');
      SplitsOnce(Owner(user), rest, Owner(user'), rest');
      assert rest[14..] == sid + "/" + "events/" && rest'[14..] == sid' + "/" + "events/";
      SplitsOnce(sid, "events/", sid', "events/");
    } else {
      SplitsOnce("sessions", sid + "/" + "events/", "sessions", sid' + "/" + "events/");
      SplitsOnce(sid, "events/", sid', "events/");
    }
  }

  /** Every id is read back from the name of its file, whatever the directory is called. */
  lemma NameRoundTrip(dir: string, id: nat)
    requires IsDir(dir)
    ensures IdFromFileName(FileName(dir, id)) == id
  {
    var digits := Decimal(id);
    DecimalParses(id);
    assert '/' !in ".json";
    assert FileName(dir, id) == dir + (digits + ".json");
    AfterLastOf(dir, digits + ".json", '/');
    BeforeFirstOf(digits, ".json", '.');
    assert digits[0] in digits && digits[|digits| - 1] in digits;
  }

  lemma NamesDiffer(dir: string, i: nat, j: nat)
    requires IsDir(dir) && FileName(dir, i) == FileName(dir, j)
    ensures i == j
  {
    NameRoundTrip(dir, i);
    NameRoundTrip(dir, j);
  }

  // ---------------------------------------------------------------- one poll

  /** The event with id `i` is the `i`-th of the source. */
  datatype Event = Event(timestamp: Option<int>, body: string)

  datatype Mirror = Mirror(files: map<string, Event>, processed: seq<nat>, lastUpdated: Option<int>)

  /** How far a poll got.
      - `upto`: the first id without a file afterwards
      - `cut`: it stopped between writing event `upto - 1` and processing it
      - `reached`: it read a last page, at which time the source held that many events
      - `stamped`: the time it wrote to the conversation's row at its end */
  datatype Outcome = Outcome(upto: nat, cut: bool, reached: Option<nat>, stamped: Option<int>)

  /** `next` is one above the highest id among the names, or 0 without names. */
  predicate IsNextId(names: set<string>, next: int) {
    if names == {} then next == 0
    else
      && (forall f :: f in names ==> IdFromFileName(f) < next)
      && exists f :: f in names && IdFromFileName(f) == next - 1
  }

  function Max(a: int, b: int): int { if a < b then b else a }

  function Copied(files: map<string, Event>, dir: string, source: seq<Event>, from: nat, upto: nat): map<string, Event>
    requires from <= upto && (from < upto ==> upto <= |source|)
  {
    if from == upto then files
    else Copied(files, dir, source, from, upto - 1)[FileName(dir, upto - 1) := source[upto - 1]]
  }

  function Ids(from: nat, upto: nat): seq<nat>
    requires from <= upto
  {
    seq(upto - from, i requires 0 <= i => from + i)
  }

  predicate PollStep(dir: string, source: seq<Event>, next: int, m: Mirror, m': Mirror, o: Outcome) {
    var from := Max(0, next);
    && IsNextId(m.files.Keys, next)
    && from <= o.upto && (from < o.upto ==> o.upto <= |source|)
    && (o.cut ==> from < o.upto && o.stamped.None?)
    && m'.files == Copied(m.files, dir, source, from, o.upto)
    && m'.processed == m.processed + Ids(from, if o.cut then o.upto - 1 else o.upto)
    && m'.lastUpdated == (if o.stamped.Some? then o.stamped else m.lastUpdated)
    && (o.reached.Some? ==> o.stamped.Some? && o.upto >= o.reached.value)
    && (m.lastUpdated.None? ==> forall i :: from <= i < o.upto ==> source[i].timestamp.None?)
  }

  // ---------------------------------------------------------------- any sequence of polls

  ghost predicate IsPoll(dir: string, source: seq<Event>, m: Mirror, m': Mirror, o: Outcome) {
    exists next :: PollStep(dir, source, next, m, m', o)
  }

  /** Poll `i` turns `ms[i]` into `ms[i + 1]`; the source only grows, by appending. */
  ghost predicate IsHistory(dir: string, sources: seq<seq<Event>>, ms: seq<Mirror>, os: seq<Outcome>) {
    && IsDir(dir) && |sources| == |os| && |ms| == |os| + 1
    && ms[0].files == map[] && ms[0].processed == []
    && (forall i, j :: 0 <= i < j < |os| ==> sources[i] <= sources[j])
    && forall i :: 0 <= i < |os| ==> IsPollAt(dir, sources, ms, os, i)
  }

  ghost predicate IsPollAt(dir: string, sources: seq<seq<Event>>, ms: seq<Mirror>, os: seq<Outcome>, i: nat)
    requires i < |os| == |sources| && |ms| == |os| + 1
  {
    IsPoll(dir, sources[i], ms[i], ms[i + 1], os[i])
  }

  /** The files are exactly those of the first `n` events of the source. */
  ghost predicate IsPrefix(dir: string, files: map<string, Event>, source: seq<Event>, n: nat) {
    && n <= |source|
    && (forall i :: 0 <= i < n ==> FileName(dir, i) in files && files[FileName(dir, i)] == source[i])
    && (forall f :: f in files ==> exists i :: 0 <= i < n && f == FileName(dir, i))
  }

  function Progress(os: seq<Outcome>, k: nat): nat
    requires k <= |os|
  {
    if k == 0 then 0 else os[k - 1].upto
  }

  predicate IsCut(o: Outcome, id: nat) { o.cut && o.upto == id + 1 }

  lemma NextIdOfPrefix(dir: string, files: map<string, Event>, source: seq<Event>, n: nat, next: int)
    requires IsDir(dir) && IsPrefix(dir, files, source, n) && IsNextId(files.Keys, next)
    ensures next == n
  {
    forall i: nat ensures IdFromFileName(FileName(dir, i)) == i {
      NameRoundTrip(dir, i);
    }
    if n > 0 { assert FileName(dir, n - 1) in files.Keys; }
  }

  lemma {:induction false} CopyExtends(dir: string, files: map<string, Event>, source: seq<Event>, n: nat, upto: nat)
    requires IsDir(dir) && IsPrefix(dir, files, source, n) && n <= upto <= |source|
    ensures IsPrefix(dir, Copied(files, dir, source, n, upto), source, upto)
  {
    if n < upto {
      CopyExtends(dir, files, source, n, upto - 1);
      forall i: nat | FileName(dir, i) == FileName(dir, upto - 1) ensures i == upto - 1 {
        NamesDiffer(dir, i, upto - 1);
      }
    }
  }

  lemma PollExtends(dir: string, source: seq<Event>, m: Mirror, m': Mirror, o: Outcome, n: nat)
    requires IsDir(dir) && IsPoll(dir, source, m, m', o) && IsPrefix(dir, m.files, source, n)
    ensures PollStep(dir, source, n, m, m', o) && IsPrefix(dir, m'.files, source, o.upto)
  {
    var next :| PollStep(dir, source, next, m, m', o);
    NextIdOfPrefix(dir, m.files, source, n, next);
    CopyExtends(dir, m.files, source, n, o.upto);
  }

  /** However the polls are cut off, the files are always those of a prefix of the source. */
  lemma {:induction false} MirrorIsPrefix(dir: string, sources: seq<seq<Event>>, ms: seq<Mirror>, os: seq<Outcome>,
                                          k: nat)
    requires IsHistory(dir, sources, ms, os) && k < |os|
    ensures IsPrefix(dir, ms[k].files, sources[k], Progress(os, k))
    ensures IsPrefix(dir, ms[k + 1].files, sources[k], Progress(os, k + 1))
    ensures PollStep(dir, sources[k], Progress(os, k), ms[k], ms[k + 1], os[k])
  {
    if k > 0 {
      MirrorIsPrefix(dir, sources, ms, os, k - 1);
      assert sources[k - 1] <= sources[k];
    }
    assert IsPollAt(dir, sources, ms, os, k);
    PollExtends(dir, sources[k], ms[k], ms[k + 1], os[k], Progress(os, k));
  }

  /** A poll that reads its last page while the source holds `n` events leaves exactly those mirrored,
      or more if more had been mirrored before; with nothing added since, the mirror equals the source. */
  lemma CompletePollCatchesUp(dir: string, sources: seq<seq<Event>>, ms: seq<Mirror>, os: seq<Outcome>, k: nat)
    requires IsHistory(dir, sources, ms, os) && k < |os|
    requires os[k].reached == Some(|sources[k]|)
    ensures IsPrefix(dir, ms[k + 1].files, sources[k], |sources[k]|)
  {
    MirrorIsPrefix(dir, sources, ms, os, k);
  }

  ghost predicate Increasing(s: seq<nat>) {
    forall i, j :: 0 <= i < j < |s| ==> s[i] < s[j]
  }

  lemma IdsAppend(s: seq<nat>, from: nat, upto: nat)
    requires from <= upto && Increasing(s) && forall x :: x in s ==> x < from
    ensures Increasing(s + Ids(from, upto))
    ensures forall x: nat :: x in s + Ids(from, upto) <==> x in s || from <= x < upto
  {
    forall i | 0 <= i < |s| ensures s[i] < from {
      assert s[i] in s;
    }
    forall x: nat | from <= x < upto ensures x in Ids(from, upto) {
      assert Ids(from, upto)[x - from] == x;
    }
  }

  /** What one poll adds to the processed ids. */
  predicate Adds(before: seq<nat>, after: seq<nat>, from: nat, o: Outcome) {
    && from <= o.upto && (o.cut ==> from < o.upto)
    && after == before + Ids(from, if o.cut then o.upto - 1 else o.upto)
  }

  predicate AddsAt(logs: seq<seq<nat>>, os: seq<Outcome>, i: nat)
    requires i < |os| < |logs|
  {
    Adds(logs[i], logs[i + 1], Progress(os, i), os[i])
  }

  ghost predicate IsLog(logs: seq<seq<nat>>, os: seq<Outcome>) {
    && |logs| == |os| + 1 && logs[0] == []
    && forall i :: 0 <= i < |os| ==> AddsAt(logs, os, i)
  }

  lemma {:induction false} ProgressGrows(logs: seq<seq<nat>>, os: seq<Outcome>, k: nat)
    requires IsLog(logs, os) && k <= |os|
    ensures forall i :: 0 <= i < k ==> os[i].upto <= Progress(os, k)
  {
    if k > 0 {
      ProgressGrows(logs, os, k - 1);
      assert AddsAt(logs, os, k - 1);
    }
  }

  lemma {:induction false} LogUnlessCut(logs: seq<seq<nat>>, os: seq<Outcome>, k: nat)
    requires IsLog(logs, os) && k <= |os|
    ensures Increasing(logs[k])
    ensures forall id: nat :: id in logs[k] <==> id < Progress(os, k) && forall i :: 0 <= i < k ==> !IsCut(os[i], id)
  {
    if k > 0 {
      LogUnlessCut(logs, os, k - 1);
      ProgressGrows(logs, os, k - 1);
      var o := os[k - 1];
      assert AddsAt(logs, os, k - 1);
      IdsAppend(logs[k - 1], Progress(os, k - 1), if o.cut then o.upto - 1 else o.upto);
    }
  }

  lemma PollAdds(dir: string, sources: seq<seq<Event>>, ms: seq<Mirror>, os: seq<Outcome>, i: nat)
    requires IsHistory(dir, sources, ms, os) && i < |os|
    ensures Adds(ms[i].processed, ms[i + 1].processed, Progress(os, i), os[i])
  {
    MirrorIsPrefix(dir, sources, ms, os, i);
  }

  /** Events are processed in id order and none twice; the ones never processed are exactly those whose
      poll was cut off between writing and processing. */
  lemma ProcessedUnlessCut(dir: string, sources: seq<seq<Event>>, ms: seq<Mirror>, os: seq<Outcome>, k: nat)
    requires IsHistory(dir, sources, ms, os) && k <= |os|
    ensures Increasing(ms[k].processed)
    ensures forall id: nat ::
              id in ms[k].processed <==> id < Progress(os, k) && forall i :: 0 <= i < k ==> !IsCut(os[i], id)
  {
    var logs := seq(|ms|, i requires 0 <= i < |ms| => ms[i].processed);
    forall i | 0 <= i < |os| ensures AddsAt(logs, os, i) {
      PollAdds(dir, sources, ms, os, i);
    }
    LogUnlessCut(logs, os, k);
  }

  // ---------------------------------------------------------------- the stored time

  /** A time is lost or replaced by an earlier one. */
  predicate MovedBack(before: Option<int>, after: Option<int>) {
    before.Some? && (after.None? || after.value < before.value)
  }

  ghost predicate NeverMovesBack(ms: seq<Mirror>) {
    forall i, j :: 0 <= i <= j < |ms| ==> !MovedBack(ms[i].lastUpdated, ms[j].lastUpdated)
  }

  /** The time stored before poll `k`: that of the last completed poll, or the first one. */
  function Stored(first: Option<int>, os: seq<Outcome>, k: nat): Option<int>
    requires k <= |os|
  {
    if k == 0 then first else if os[k - 1].stamped.Some? then os[k - 1].stamped else Stored(first, os, k - 1)
  }

  /** At poll `k` the clock is not behind the time stored before. */
  predicate ClockIsAhead(first: Option<int>, os: seq<Outcome>, k: nat)
    requires k < |os|
  {
    var stored := Stored(first, os, k);
    os[k].stamped.Some? && stored.Some? ==> stored.value <= os[k].stamped.value
  }

  lemma {:induction false} StoredIs(dir: string, sources: seq<seq<Event>>, ms: seq<Mirror>, os: seq<Outcome>, k: nat)
    requires IsHistory(dir, sources, ms, os) && k <= |os|
    ensures ms[k].lastUpdated == Stored(ms[0].lastUpdated, os, k)
  {
    if k > 0 {
      StoredIs(dir, sources, ms, os, k - 1);
      assert IsPollAt(dir, sources, ms, os, k - 1);
    }
  }

  lemma {:induction false} StoredGrows(first: Option<int>, os: seq<Outcome>, i: nat, j: nat)
    requires i <= j <= |os| && forall k :: 0 <= k < |os| ==> ClockIsAhead(first, os, k)
    ensures !MovedBack(Stored(first, os, i), Stored(first, os, j))
    decreases j
  {
    if i < j {
      StoredGrows(first, os, i, j - 1);
      assert ClockIsAhead(first, os, j - 1);
    }
  }

  /** The time worked out from the events never lies before the stored one, but it is not what a poll
      stores.  The stored time never moves back along a history if and only if the clock of every
      completed poll is at least the time stored before it. */
  lemma StoredTimeIff(dir: string, sources: seq<seq<Event>>, ms: seq<Mirror>, os: seq<Outcome>)
    requires IsHistory(dir, sources, ms, os)
    ensures NeverMovesBack(ms) <==> forall k :: 0 <= k < |os| ==> ClockIsAhead(ms[0].lastUpdated, os, k)
  {
    forall k | 0 <= k <= |os| ensures ms[k].lastUpdated == Stored(ms[0].lastUpdated, os, k) {
      StoredIs(dir, sources, ms, os, k);
    }
    if forall k :: 0 <= k < |os| ==> ClockIsAhead(ms[0].lastUpdated, os, k) {
      forall i, j | 0 <= i <= j < |ms| ensures !MovedBack(ms[i].lastUpdated, ms[j].lastUpdated) {
        StoredGrows(ms[0].lastUpdated, os, i, j);
      }
    }
    if NeverMovesBack(ms) {
      forall k | 0 <= k < |os| ensures ClockIsAhead(ms[0].lastUpdated, os, k) {
        assert !MovedBack(ms[k].lastUpdated, ms[k + 1].lastUpdated);
      }
    }
  }

  /** Stored 10, clock 5: one complete poll of an empty source leaves 5. */
  lemma ClockBehindMovesBack()
    ensures var m, m' := Mirror(map[], [], Some(10)), Mirror(map[], [], Some(5));
            && IsHistory("/", [[]], [m, m'], [Outcome(0, false, Some(0), Some(5))])
            && !NeverMovesBack([m, m'])
  {
    var m, m' := Mirror(map[], [], Some(10)), Mirror(map[], [], Some(5));
    var sources: seq<seq<Event>>, ms, os := [[]], [m, m'], [Outcome(0, false, Some(0), Some(5))];
    assert PollStep("/", sources[0], 0, m, m', os[0]);
    assert IsPollAt("/", sources, ms, os, 0);
    assert MovedBack(ms[0].lastUpdated, ms[1].lastUpdated);
  }

  /** Every completed poll has read past event `f`. */
  ghost predicate SeesEvent(os: seq<Outcome>, f: nat) {
    forall k :: 0 <= k < |os| && os[k].stamped.Some? ==> os[k].reached.Some? && os[k].reached.value > f
  }

  /** A conversation without a stored time: its mirror never gets past the first event that has a time,
      because comparing the two raises before the event is written, and so it never gets a stored time. */
  lemma {:induction false} UntimedMirrorIsStuck(dir: string, sources: seq<seq<Event>>, ms: seq<Mirror>,
                                                os: seq<Outcome>, f: nat, k: nat)
    requires IsHistory(dir, sources, ms, os) && ms[0].lastUpdated.None? && k <= |os|
    requires |os| > 0 ==> f < |sources[0]| && sources[0][f].timestamp.Some?
    requires SeesEvent(os, f)
    ensures ms[k].lastUpdated.None? && Progress(os, k) <= f
  {
    if k > 0 {
      UntimedMirrorIsStuck(dir, sources, ms, os, f, k - 1);
      MirrorIsPrefix(dir, sources, ms, os, k - 1);
      assert sources[0] <= sources[k - 1];
      assert sources[k - 1][f] == sources[0][f];
    }
  }

  /** For instance, a poll of one timed event leaves nothing and changes nothing. */
  lemma UntimedPollRaises(e: Event)
    requires e.timestamp.Some?
    ensures var m, o := Mirror(map[], [], None), Outcome(0, false, None, None);
            && PollStep("/", [e], 0, m, m, o)
            && forall m', o' :: PollStep("/", [e], 0, m, m', o') ==> o'.upto == 0
  {
  }

  // ---------------------------------------------------------------- the poller

  const PAGE := 20

  /** The answer to one page request: the source holds `visible` events, is gone, or cannot be asked. */
  datatype Fetch = Page(visible: nat) | NotFound | Raises

  lemma {:induction false} CopiedTwice(files: map<string, Event>, dir: string, source: seq<Event>, a: nat, b: nat,
                                       c: nat)
    requires a <= b <= c && (a < c ==> c <= |source|)
    ensures Copied(Copied(files, dir, source, a, b), dir, source, b, c) == Copied(files, dir, source, a, c)
  {
    if b < c { CopiedTwice(files, dir, source, a, b, c - 1); }
  }

  /** The effect on the files and the processed ids of getting from `from` to `upto`. */
  function Went(m: Mirror, dir: string, source: seq<Event>, from: nat, upto: nat, cut: bool)
    : (map<string, Event>, seq<nat>)
    requires from <= upto && (from < upto ==> upto <= |source|) && (cut ==> from < upto)
  {
    (Copied(m.files, dir, source, from, upto), m.processed + Ids(from, if cut then upto - 1 else upto))
  }

  lemma WentNowhere(m: Mirror, dir: string, source: seq<Event>, from: nat)
    ensures Went(m, dir, source, from, from, false) == (m.files, m.processed)
  {
    assert m.processed + Ids(from, from) == m.processed;
  }

  lemma Resumed(m: Mirror, mid: Mirror, dir: string, source: seq<Event>, a: nat, b: nat, c: nat, cut: bool)
    requires a <= b <= c && (a < c ==> c <= |source|) && (cut ==> b < c)
    requires (mid.files, mid.processed) == Went(m, dir, source, a, b, false)
    ensures Went(mid, dir, source, b, c, cut) == Went(m, dir, source, a, c, cut)
  {
    CopiedTwice(m.files, dir, source, a, b, c);
    var upto := if cut then c - 1 else c;
    assert m.processed + Ids(a, b) + Ids(b, upto) == m.processed + Ids(a, upto);
  }

  /** `t` is at least `last` and the time of every event in the range; without `last` there is none. */
  predicate IsLatest(t: Option<int>, last: Option<int>, source: seq<Event>, from: nat, upto: nat)
    requires from <= upto && (from < upto ==> upto <= |source|)
  {
    && (t.Some? <==> last.Some?)
    && (t.Some? ==> t.value >= last.value)
    && forall i :: from <= i < upto && source[i].timestamp.Some? ==> t.Some? && source[i].timestamp.value <= t.value
  }

  /** The poll has got through exactly so many file writes and processing calls. */
  predicate Spent(from: nat, upto: nat, cut: bool, budget: nat) {
    2 * (upto - from) - (if cut then 1 else 0) == budget
  }

  class EventPoller {
    var files: map<string, Event>
    var processed: seq<nat>
    var lastUpdated: Option<int>

    constructor (lastUpdated: Option<int>)
      ensures State() == Mirror(map[], [], lastUpdated)
    {
      files, processed, this.lastUpdated := map[], [], lastUpdated;
    }

    function State(): Mirror
      reads this
    {
      Mirror(files, processed, lastUpdated)
    }

    method NextId() returns (next: int)
      ensures IsNextId(files.Keys, next)
    {
      if files.Keys == {} {
        return 0;
      }
      var todo := files.Keys;
      var first :| first in todo;
      var highest := IdFromFileName(first);
      todo := todo - {first};
      while todo != {}
        invariant todo <= files.Keys
        invariant exists f :: f in files.Keys && IdFromFileName(f) == highest
        invariant forall f :: f in files.Keys - todo ==> IdFromFileName(f) <= highest
        decreases todo
      {
        var f :| f in todo;
        highest := Max(highest, IdFromFileName(f));
        todo := todo - {f};
      }
      next := highest + 1;
    }

    /** The events of one page; `alive` if neither the budget nor a missing stored time ends the poll. */
    method CopyPage(dir: string, source: seq<Event>, from: nat, end: nat, budget: nat, last: Option<int>)
      returns (upto: nat, cut: bool, steps: nat, computed: Option<int>, alive: bool)
      requires from <= end && (from < end ==> end <= |source|)
      modifies `files, `processed
      ensures from <= upto <= end && (cut ==> from < upto)
                && (alive ==> !cut && upto == end && steps + 2 * (upto - from) == budget)
      ensures !alive && !Spent(from, upto, cut, budget) ==>
                last.None? && !cut && upto < end && source[upto].timestamp.Some?
      ensures (files, processed) == Went(old(State()), dir, source, from, upto, cut)
      ensures IsLatest(computed, last, source, from, upto)
    {
      upto, cut, steps, computed, alive := from, false, budget, last, false;
      WentNowhere(State(), dir, source, from);
      while upto < end
        invariant from <= upto <= end && !cut && !alive && steps + 2 * (upto - from) == budget
        invariant (files, processed) == Went(old(State()), dir, source, from, upto, false)
        invariant IsLatest(computed, last, source, from, upto)
      {
        var event := source[upto];
        if event.timestamp.Some? {
          if computed.None? {
            return;
          }
          computed := Some(Max(computed.value, event.timestamp.value));
        }
        if steps == 0 {
          return;
        }
        files := files[FileName(dir, upto) := event];
        upto := upto + 1;
        if steps == 1 {
          cut := true;
          return;
        }
        processed := processed + [upto - 1];
        assert old(processed) + Ids(from, upto) == old(processed) + Ids(from, upto - 1) + [upto - 1];
        steps := steps - 2;
      }
      alive := true;
    }

    /** The page requests of a poll that starts at `from`; without `alive` the poll ends there. */
    method ReadPages(dir: string, source: seq<Event>, from: nat, fetches: seq<Fetch>, budget: nat)
      returns (upto: nat, cut: bool, reached: Option<nat>, computed: Option<int>, alive: bool)
      requires forall i :: 0 <= i < |fetches| && fetches[i].Page? ==> fetches[i].visible <= |source|
      modifies `files, `processed
      ensures from <= upto && (from < upto ==> upto <= |source|) && (cut ==> from < upto) && (alive ==> !cut)
      ensures (files, processed) == Went(old(State()), dir, source, from, upto, cut)
      ensures IsLatest(computed, lastUpdated, source, from, upto)
      ensures reached.Some? ==> alive && Page(reached.value) in fetches && reached.value <= upto
      ensures alive && reached.None? ==> NotFound in fetches
      ensures !alive ==> Spent(from, upto, cut, budget) || Raises in fetches || upto - from >= PAGE * |fetches|
                         || (lastUpdated.None? && upto < |source| && source[upto].timestamp.Some?)
    {
      var k, steps: nat := 0, budget;
      upto, cut, reached, computed, alive := from, false, None, lastUpdated, true;
      WentNowhere(State(), dir, source, from);
      while reached.None?
        invariant k <= |fetches| && steps + 2 * (upto - from) == budget && alive && !cut
        invariant from <= upto && (from < upto ==> upto <= |source|)
        invariant reached.None? ==> upto - from >= PAGE * k
        invariant (files, processed) == Went(old(State()), dir, source, from, upto, false)
        invariant reached.Some? ==> Page(reached.value) in fetches && reached.value <= upto
        invariant IsLatest(computed, lastUpdated, source, from, upto)
        decreases |fetches| - k, reached.None?
      {
        if k == |fetches| || fetches[k] == Raises {
          alive := false;
          return;
        }
        if fetches[k] == NotFound {
          return;
        }
        var visible := fetches[k].visible;
        var end := if visible > upto + PAGE then upto + PAGE else Max(upto, visible);
        ghost var before, mid := upto, State();
        upto, cut, steps, computed, alive := CopyPage(dir, source, upto, end, steps, computed);
        Resumed(old(State()), mid, dir, source, from, before, upto, cut);
        if !alive {
          return;
        }
        if visible <= upto {
          reached := Some(visible);
        }
        k := k + 1;
      }
    }

    /** One poll.  `fetches` are the answers to its page requests, `budget` how many file writes and
        processing calls it gets through.  `computed` is the time it works out from the events, which
        never lies before the stored one; what it stores is the clock.  It reaches its end unless the
        budget or the answers run out, a request raises, or a time has to be compared with none. */
    method Poll(dir: string, source: seq<Event>, fetches: seq<Fetch>, budget: nat, now: int)
      returns (o: Outcome, computed: Option<int>, ghost next: int)
      requires forall i :: 0 <= i < |fetches| && fetches[i].Page? ==> fetches[i].visible <= |source|
      modifies this
      ensures PollStep(dir, source, next, old(State()), State(), o)
      ensures o.reached.Some? ==> Page(o.reached.value) in fetches
      ensures o.stamped == None || o.stamped == Some(now)
      ensures o.stamped.Some? && NotFound !in fetches ==> o.reached.Some?
      ensures IsLatest(computed, old(lastUpdated), source, Max(0, next), o.upto)
      ensures MovedBack(old(lastUpdated), lastUpdated) <==>
                o.stamped.Some? && old(lastUpdated).Some? && now < old(lastUpdated).value
      ensures o.stamped.None? ==>
                || Spent(Max(0, next), o.upto, o.cut, budget)
                || Raises in fetches || o.upto - Max(0, next) >= PAGE * |fetches|
                || (old(lastUpdated).None? && o.upto < |source| && source[o.upto].timestamp.Some?)
    {
      var start := NextId();
      next := start;
      var upto, cut, reached, alive;
      upto, cut, reached, computed, alive := ReadPages(dir, source, Max(0, start), fetches, budget);
      if alive {
        lastUpdated := Some(now);
      }
      o := Outcome(upto, cut, reached, if alive then Some(now) else None);
    }
  }
}
