/** What the outside answers to a garbage collection, and what the steps of its methods add
    up to. */
module GcAnswers {
  import opened Wrappers
  import opened Results
  import opened Order
  import opened Reachability
  import opened GcState
  import opened GcSteps
  import opened GcSafety
  import opened GcActors
  import opened GcSpared

  // ---- the outside ----

  /** What becomes of one delete: done, refused with an error, or without an answer. In the
      last two cases the object may be gone all the same. */
  datatype Removal = Done | Rejected(lost: bool) | Unanswered(lost: bool)

  /** What the server is told about it. */
  datatype Answer = Deleted | NoSuchKey | Failed | Silent

  /** What the bucket answers to the abort of a multipart upload. */
  datatype AbortAnswer = Aborted | NoSuchUpload | Refused | Canceled

  /** The outside answers whenever it is asked; time is the number of questions so far:
      deletes, whether a stat is answered, aborts of uploads, which pushes' rows a commit
      holds, and whether a database statement fails. */
  datatype World = World(
    remove: (nat, Key) -> Removal,
    stat: (nat, Key) -> bool,
    abort: (nat, Id) -> AbortAnswer,
    held: nat -> set<Id>,
    fails: nat -> bool)

  predicate Agrees(answer: Answer, r: Removal) {
    match r
    case Done => answer.Deleted? || answer.NoSuchKey?
    case Rejected(_) => answer.Failed?
    case Unanswered(_) => answer.Silent?
  }

  /** A statement failed in that time. */
  ghost predicate Failing(w: World, from: nat, to: nat) {
    exists t :: from <= t < to && w.fails(t)
  }

  /** Something went wrong in that time: a statement, a delete, or a canceled abort. */
  ghost predicate Excused(w: World, from: nat, to: nat) {
    || Failing(w, from, to)
    || (exists t, k :: from <= t < to && w.remove(t, k).Rejected?)
    || exists t, id :: from <= t < to && w.abort(t, id).Canceled?
  }

  /** The delete of k was done, or it was not answered and then a stat was. */
  ghost predicate Confirmed(w: World, from: nat, to: nat, k: Key) {
    exists t :: from <= t < to && (w.remove(t, k).Done? || (w.remove(t, k).Unanswered? && StatAnswered(w, t, to, k)))
  }

  ghost predicate StatAnswered(w: World, from: nat, to: nat, k: Key) {
    exists t :: from < t < to && w.stat(t, k)
  }

  /** The protocol step that a delete at time t comes to. */
  function RemovalStep(w: World, t: nat, k: Key): Step {
    match w.remove(t, k)
    case Done => SweepRemoved(k)
    case Rejected(lost) => SweepFailed(k, lost)
    case Unanswered(lost) => SweepFailed(k, lost)
  }

  /** One delete a key, in order. */
  function Removals(w: World, t: nat, keys: seq<Key>): seq<Step> {
    seq(|keys|, i requires 0 <= i < |keys| => RemovalStep(w, t + i, keys[i]))
  }

  /** The keys without an answer. */
  function SilentKeys(keys: seq<Key>, answers: map<Key, Answer>): seq<Key> {
    if keys == [] then []
    else
      var last := keys[|keys| - 1];
      SilentKeys(keys[..|keys| - 1], answers) + if last in answers && answers[last].Silent? then [last] else []
  }

  /** One stat a key, in order: it finds the key or misses it, or is not answered. */
  ghost predicate AreStats(w: World, t: nat, keys: seq<Key>, steps: seq<Step>) {
    && |steps| == |keys|
    && forall i :: 0 <= i < |keys| ==>
         if w.stat(t + i, keys[i]) then steps[i].SweepStat? && steps[i].key == keys[i]
         else steps[i] == SweepFailed(keys[i], false)
  }

  /** One stat: it is answered and finds k, or misses it, or is not answered. */
  predicate IsStat(w: World, t: nat, k: Key, step: Step, absent: set<Key>) {
    if !w.stat(t, k) then step == SweepFailed(k, false) && absent == {}
    else (step == SweepStat(k, true) && absent == {}) || (step == SweepStat(k, false) && absent == {k})
  }

  /** The keys whose rows a sweep deletes at its commit. */
  predicate GoneBy(own: seq<Step>, k: Key) {
    SweepRemoved(k) in own || SweepStat(k, false) in own
  }

  /** More keys are gone. */
  function WithGone(sweep: Sweep, keys: set<Key>): (r: Sweep)
    requires sweep.Deleting?
    ensures r.Deleting? && r.keys == sweep.keys && r.doomed == sweep.doomed
  {
    Deleting(sweep.keys, sweep.doomed, sweep.gone + keys)
  }

  lemma GoneSoFar(sweep: Sweep, a: set<Key>, b: set<Key>)
    requires sweep.Deleting?
    ensures WithGone(WithGone(sweep, a), b) == WithGone(sweep, a + b) && WithGone(sweep, {}) == sweep
    ensures WithGone(sweep, a).doomed == sweep.doomed && WithGone(sweep, a).gone == sweep.gone + a
  {
    assert sweep.gone + a + b == sweep.gone + (a + b) && sweep.gone + {} == sweep.gone;
  }

  lemma SweepIsGone(sweep: Sweep, deleted: set<Key>, absent: set<Key>)
    requires sweep.Deleting? && sweep.gone == {}
    ensures WithGone(WithGone(sweep, deleted), absent).gone == deleted + absent
  {
  }

  /** No delete of these keys, asked for from time t on, was refused. */
  ghost predicate NoneRejected(w: World, t: nat, keys: seq<Key>) {
    forall i :: 0 <= i < |keys| ==> !w.remove(t + i, keys[i]).Rejected?
  }

  /** With ok, the rows of these keys are deleted, and no others. */
  ghost predicate Deletes(own: seq<Step>, ok: bool, deleted: set<Key>) {
    forall k :: k in deleted <==> ok && GoneBy(own, k)
  }

  ghost predicate AllConfirmed(w: World, from: nat, to: nat, deleted: set<Key>, looked: seq<Key>) {
    forall k :: k in deleted ==> k in looked && Confirmed(w, from, to, k)
  }

  /** Of the rows before, only the deleted ones are missing, and they are missing. */
  predicate RowsLost(before: set<Key>, after: set<Key>, deleted: set<Key>) {
    before - after <= deleted && deleted !! after
  }

  /** The pushes some upload of which could not be aborted. */
  function Unaborted(uploads: seq<Id>, answers: seq<AbortAnswer>): set<Id>
    requires |answers| == |uploads|
  {
    set i | 0 <= i < |uploads| && answers[i].Refused? :: uploads[i]
  }

  /** Every upload's abort was asked for once, in order, and none was canceled. */
  ghost predicate AnswersAre(w: World, t: nat, uploads: seq<Id>, answers: seq<AbortAnswer>) {
    && |answers| == |uploads| && Canceled !in answers
    && forall i :: 0 <= i < |uploads| ==> answers[i] == w.abort(t + i, uploads[i])
  }

  /** The statement removed the pushes begun before the cutoff but the spared ones, and says
      how many; it changed nothing else but rows. */
  ghost predicate ExpiredBut(spared: set<Id>, cutoff: Time, at: State, st: State, count: nat) {
    && PushesRemoved(spared, cutoff, at, st) && count == |at.pending.Keys - st.pending.Keys|
    && RowsAdded(cutoff, at, st)
    && st == at.(rows := st.rows, pending := st.pending)
  }

  predicate PushesRemoved(spared: set<Id>, cutoff: Time, at: State, st: State) {
    && (forall id :: id in at.pending ==> (id !in st.pending <==> at.pending[id].startedAt < cutoff && id !in spared))
    && forall id :: id in st.pending ==> id in at.pending && st.pending[id] == at.pending[id]
  }

  /** What the removed pushes had listed has a row now: a tombstone where there was none. */
  ghost predicate RowsAdded(cutoff: Time, at: State, st: State) {
    && (forall k :: k in at.rows ==> k in st.rows && st.rows[k] == at.rows[k])
    && (forall k :: k in st.rows && k !in at.rows ==> LeftBehind(cutoff, at, st, k))
    && forall id, k :: id in at.pending && id !in st.pending && k in at.pending[id].objs ==> k in st.rows
  }

  /** The row of k is a tombstone with the refs that some removed push gave. */
  ghost predicate LeftBehind(cutoff: Time, at: State, st: State, k: Key)
    requires k in st.rows
  {
    exists id :: id in at.pending && id !in st.pending && k in at.pending[id].objs
      && st.rows[k] == Row(at.pending[id].objs[k], Some(cutoff), Some(cutoff))
  }

  /** The expiry of a garbage collection: the aborts are asked for from time t on. */
  ghost predicate Expiry(w: World, t: nat, uploads: seq<Id>, cutoff: Time, at: State, st: State) {
    exists answers :: AnswersAre(w, t, uploads, answers)
      && var spared := Unaborted(uploads, answers) + w.held(t + |uploads|);
         ExpiredBut(spared, cutoff, at, st, |at.pending.Keys - st.pending.Keys|)
  }

  /** No push of less than this age was touched, and no row that was there. */
  predicate YoungPushesStay(age: nat, at: State, st: State) {
    && (forall id :: id in at.pending && at.now <= at.pending[id].startedAt + age ==>
         id in st.pending && st.pending[id] == at.pending[id])
    && forall k :: k in at.rows ==> k in st.rows && st.rows[k] == at.rows[k]
  }

  lemma ExpiryIsOfOld(w: World, t: nat, uploads: seq<Id>, answers: seq<AbortAnswer>, cutoff: Time, at: State,
                      st: State, count: nat, age: nat)
    requires AnswersAre(w, t, uploads, answers) && cutoff + age <= at.now
    requires ExpiredBut(Unaborted(uploads, answers) + w.held(t + |uploads|), cutoff, at, st, count)
    ensures Expiry(w, t, uploads, cutoff, at, st) && YoungPushesStay(age, at, st)
  {
    hide AnswersAre, Unaborted, LeftBehind;
  }

  lemma NothingExpires(age: nat, s: State)
    ensures YoungPushesStay(age, s, s)
  {
  }

  /** The purge saw `at` and deleted closures that were all old, unpinned and unshared. */
  ghost predicate PurgedOld(cutoff: Time, at: State, st: State, count: nat) {
    && DoPurgeCommit(at, st) && count == |at.purge.dead|
    && forall k :: k in at.purge.dead ==>
      k in at.closures && at.closures[k] < cutoff && !IsPinned(at, k) && !IsShared(at, k)
  }

  /** The steps of a purge that went through. */
  predicate IsPurge(own: seq<Step>, cutoff: Time) {
    && |own| == 4 && own[0] == PurgeScan(cutoff) && own[1].PurgeLock? && own[2] == PurgeDelete && own[3] == PurgeCommit
  }

  lemma AnswersGiven(w: World, t: nat, uploads: seq<Id>, answers: seq<AbortAnswer>)
    requires |answers| == |uploads| && Canceled !in answers
    requires forall i :: 0 <= i < |uploads| ==> answers[i] == w.abort(t + i, uploads[i])
    ensures AnswersAre(w, t, uploads, answers)
  {
  }

  lemma UnabortedMore(uploads: seq<Id>, answers: seq<AbortAnswer>, id: Id, answer: AbortAnswer)
    requires |answers| == |uploads|
    ensures Unaborted(uploads + [id], answers + [answer])
      == Unaborted(uploads, answers) + if answer.Refused? then {id} else {}
  {
    var us, ans := uploads + [id], answers + [answer];
    forall x | x in Unaborted(uploads, answers) ensures x in Unaborted(us, ans) {
      var i :| 0 <= i < |uploads| && answers[i].Refused? && uploads[i] == x;
      assert us[i] == x && ans[i] == answers[i];
    }
    assert us[|uploads|] == id && ans[|uploads|] == answer;
  }

  /** The keys of s in byte order. */
  method SortedKeys(s: set<Key>) returns (q: seq<Key>)
    ensures Ascending(Self, q)
    ensures forall k :: k in q <==> k in s
  {
    var rest := s;
    q := [];
    while rest != {}
      invariant rest <= s && Ascending(Self, q)
      invariant forall k :: k in q <==> k in s && k !in rest
      decreases rest
    {
      var k :| k in rest;
      InsertFresh(k, q);
      q, rest := Order.Insert(Self, k, q), rest - {k};
    }
  }

  // ---- the rows of a batch ----

  predicate Within(s: State, keys: set<Key>) {
    s.rows.Keys <= keys && forall id :: id in s.pending ==> s.pending[id].objs.Keys <= keys
  }

  lemma CandidatesAreKeys(s: State, grace: Time, afterKey: Key, keys: set<Key>)
    requires Within(s, keys)
    ensures Candidates(s, grace, afterKey) <= keys
  {
  }

  lemma InvGivesSessions(s: State)
    requires Inv(s)
    ensures s.pending.Keys <= s.sessions.Keys
  {
  }

  // ---- steps of the methods ----

  /** What the statement leaves: tombstones for the keys without a row, and no expired push. */
  function WithoutPushes(s: State, cutoff: Time, expired: set<Id>, source: map<Key, Id>): State
    requires forall k :: k in source ==> source[k] in s.pending && k in s.pending[source[k]].objs
  {
    s.(rows := map k | k in s.rows.Keys + source.Keys ::
         if k in s.rows then s.rows[k] else Row(s.pending[source[k]].objs[k], Some(cutoff), Some(cutoff)),
       pending := s.pending - expired)
  }

  lemma PushesLeft(s: State, cutoff: Time, spared: set<Id>, t: State)
    requires t.pending == s.pending - Old(s, cutoff, spared)
    ensures PushesRemoved(spared, cutoff, s, t)
    ensures s.pending.Keys - t.pending.Keys == Old(s, cutoff, spared)
  {
  }

  lemma RowsLeft(s: State, cutoff: Time, expired: set<Id>, source: map<Key, Id>, t: State)
    requires expired <= s.pending.Keys && source.Keys == Orphaned(s, expired)
    requires forall k :: k in source ==> source[k] in expired && k in s.pending[source[k]].objs
    requires t == WithoutPushes(s, cutoff, expired, source)
    ensures RowsAdded(cutoff, s, t)
  {
    assert t.rows.Keys == s.rows.Keys + source.Keys;
    forall k | k in t.rows && k !in s.rows ensures LeftBehind(cutoff, s, t, k) {
      assert source[k] in s.pending && source[k] !in t.pending;
    }
    forall id, k | id in s.pending && id !in t.pending && k in s.pending[id].objs ensures k in t.rows {
      assert k in s.rows || k in Orphaned(s, expired);
    }
  }

  lemma ExpiryIsStep(s: State, cutoff: Time, spared: set<Id>, source: map<Key, Id>, t: State, keys: set<Key>)
    requires Within(s, keys) && cutoff <= s.now
    requires source.Keys == Orphaned(s, Old(s, cutoff, spared))
    requires forall k :: k in source ==> source[k] in Old(s, cutoff, spared) && k in s.pending[source[k]].objs
    requires t == WithoutPushes(s, cutoff, Old(s, cutoff, spared), source)
    ensures Within(t, keys) && Next(s, Expire(cutoff, spared, source), t)
    ensures Thorough(s, Expire(cutoff, spared, source))
    ensures t == s.(rows := t.rows, pending := s.pending - Old(s, cutoff, spared))
  {
  }

  /** The statement as the protocol's step, and in plain words. */
  lemma ExpiryIs(s: State, cutoff: Time, spared: set<Id>, source: map<Key, Id>, t: State, count: nat, keys: set<Key>)
    requires Within(s, keys) && cutoff <= s.now && count == |Old(s, cutoff, spared)|
    requires source.Keys == Orphaned(s, Old(s, cutoff, spared))
    requires forall k :: k in source ==> source[k] in Old(s, cutoff, spared) && k in s.pending[source[k]].objs
    requires t == WithoutPushes(s, cutoff, Old(s, cutoff, spared), source)
    ensures Within(t, keys) && ExpiredBut(spared, cutoff, s, t, count)
    ensures Next(s, Expire(cutoff, spared, source), t) && Thorough(s, Expire(cutoff, spared, source))
    ensures t.sweep == s.sweep && t.purge == s.purge && t.log == s.log
  {
    hide Old, Orphaned, WithoutPushes, Within, Next, Thorough, PushesRemoved, RowsAdded;
    ExpiryIsStep(s, cutoff, spared, source, t, keys);
    PushesLeft(s, cutoff, spared, t);
    RowsLeft(s, cutoff, Old(s, cutoff, spared), source, t);
  }

  lemma MarkKeepsKeys(s: State, t: State)
    requires DoMark(s, t)
    ensures t.rows.Keys == s.rows.Keys && t.sweep == s.sweep && t.purge == s.purge
  {
  }

  /** The closures a purge has locked keep their age. */
  lemma AgesStay(s: State, t: State, keys: set<Key>, cutoff: Time)
    requires Respects(Collector, s, t) && keys == LockedClosures(s)
    requires forall k :: k in keys ==> k in s.closures && s.closures[k] < cutoff
    ensures forall k :: k in keys ==> k in t.closures && t.closures[k] < cutoff
  {
  }

  /** What the purge deletes, no pin names and no pin request holds. */
  lemma DeadAreFree(s: State)
    requires Inv(s) && s.purge.PurgeDeleting?
    ensures forall k :: k in s.purge.dead ==> !IsPinned(s, k) && !IsShared(s, k)
  {
  }

  lemma PinIsSafe(s: State, name: string)
    requires Inv(s) && name in s.pins
    ensures s.pins[name] in s.closures
  {
  }

  /** A push was told what to upload. As long as it is pending, the rest of its objects are
      live and have their bytes. */
  ghost predicate Told(s: State, id: Id, objs: map<Key, set<Key>>, offered: set<Key>) {
    && id in s.sessions && s.sessions[id] == Checked(offered, {})
    && (id in s.pending ==>
          s.pending[id].objs == objs && forall k :: k in objs && k !in offered ==> Live(s.rows, k) && k in s.bucket)
  }

  lemma ToldIsTrue(s: State, id: Id, objs: map<Key, set<Key>>, offered: set<Key>)
    requires Inv(s) && id in s.sessions && s.sessions[id] == Checked(offered, {})
    requires id in s.pending ==> s.pending[id].objs == objs
    ensures Told(s, id, objs, offered)
  {
    if id in s.pending {
      forall k | k in objs && k !in offered ensures Live(s.rows, k) && k in s.bucket { assert Relied(s, id, k); }
    }
  }

  /** The lookup of a push, or, if its rows have expired meanwhile, the late one. */
  function LookupStep(s: State, id: Id, verifyS3: bool, offered: set<Key>): Step {
    if id in s.pending then Lookup(id, verifyS3) else LateLookup(id, offered)
  }

  /** Offered is what was not live then, or had lost its bytes; so nothing that is there is
      uploaded again. */
  ghost predicate OffersMissing(s: State, objs: map<Key, set<Key>>, offered: set<Key>) {
    forall k :: k in offered <==> k in objs && !(Live(s.rows, k) && k in s.bucket)
  }

  lemma RestIsOffered(s: State, objs: map<Key, set<Key>>, verifyS3: bool, offered: set<Key>)
    requires Inv(s) && offered == objs.Keys - Present(s, objs, verifyS3)
    ensures OffersMissing(s, objs, offered)
  {
    hide GrantsHold, PinsSafe, PushesBacked, SweepSafe;
  }

  predicate IsInsert(step: Step, id: Id, closureKey: Key, roots: set<Key>, objs: map<Key, set<Key>>) {
    step.Insert? && step.id == id && step.pending.key == closureKey && step.pending.roots == roots
      && step.pending.objs == objs
  }

  lemma UnpendingIsPart(s: State, looked: seq<Key>, asked: seq<Key>)
    requires Elements(asked) == Unpending(s, Elements(looked))
    ensures Elements(asked) <= Elements(looked)
  {
  }

  /** The first keys of a sorted set. */
  lemma FirstAre(sorted: seq<Key>, all: set<Key>, limit: nat)
    requires Ascending(Self, sorted) && forall k :: k in sorted <==> k in all
    ensures var first := UpTo(sorted, limit);
      && Ascending(Self, first) && |first| <= limit && Elements(first) <= all
      && FirstOf(Elements(first), all, limit)
  {
    assert Elements(sorted) == all;
    forall k | k in UpTo(sorted, limit) ensures k in sorted {}
  }

  // ---- deletes and stats ----

  /** The first i keys were asked for, and these are the answers so far. */
  ghost predicate Answered(w: World, t: nat, keys: seq<Key>, i: nat, answers: map<Key, Answer>, deleted: set<Key>,
                           clean: bool) {
    && i <= |keys| && answers.Keys == Elements(keys[..i])
    && (forall j :: 0 <= j < i ==> keys[j] in answers && Agrees(answers[keys[j]], w.remove(t + j, keys[j])))
    && (forall k :: k in deleted <==> k in answers && (answers[k].Deleted? || answers[k].NoSuchKey?))
    && (clean <==> forall k :: k in answers ==> !answers[k].Failed?)
  }

  lemma DoneIsAnswered(answer: Answer, r: Removal)
    requires Agrees(answer, r)
    ensures r.Done? <==> answer.Deleted? || answer.NoSuchKey?
  {
  }

  lemma NoAnswers(w: World, t: nat, keys: seq<Key>, own: seq<Step>)
    ensures Answered(w, t, keys, 0, map[], {}, true) && own + Removals(w, t, keys[..0]) == own
  {
  }

  lemma DoomedAt(keys: seq<Key>, i: nat)
    requires i < |keys|
    ensures keys[i] in Elements(keys)
  {
  }

  lemma MoreRemovals(w: World, t: nat, keys: seq<Key>, i: nat, own: seq<Step>)
    requires i < |keys|
    ensures own + Removals(w, t, keys[..i]) + [RemovalStep(w, t + i, keys[i])] == own + Removals(w, t, keys[..i + 1])
  {
  }

  lemma NextAnswer(w: World, t: nat, keys: seq<Key>, i: nat, answers: map<Key, Answer>, deleted: set<Key>, clean: bool,
                   answer: Answer)
    requires i < |keys| && Ascending(Self, keys) && Answered(w, t, keys, i, answers, deleted, clean)
    requires Agrees(answer, w.remove(t + i, keys[i]))
    ensures Answered(w, t, keys, i + 1, answers[keys[i] := answer],
                     deleted + if answer.Deleted? || answer.NoSuchKey? then {keys[i]} else {}, clean && !answer.Failed?)
  {
    hide Agrees, Ascending;
    AscendingIsFresh(keys, i);
    assert keys[..i + 1] == keys[..i] + [keys[i]];
    assert Elements(keys[..i + 1]) == Elements(keys[..i]) + {keys[i]};
    forall j | 0 <= j < i ensures keys[j] != keys[i] { assert keys[j] in keys[..i]; }
    assert keys[i] !in Elements(keys[..i]);
    OneAnswerMore(answers, keys[i], answer);
  }

  lemma OneAnswerMore(answers: map<Key, Answer>, k: Key, answer: Answer)
    requires k !in answers
    ensures var more := answers[k := answer];
      && more.Keys == answers.Keys + {k} && more[k] == answer && (forall o :: o in answers ==> more[o] == answers[o])
      && ((forall o :: o in more ==> !more[o].Failed?)
        <==> (forall o :: o in answers ==> !answers[o].Failed?) && !answer.Failed?)
  {
    var more := answers[k := answer];
    assert k in more;
    if o :| o in answers && answers[o].Failed? { assert more[o].Failed?; }
  }

  lemma AllAnswered(w: World, t: nat, keys: seq<Key>, answers: map<Key, Answer>, deleted: set<Key>, clean: bool)
    requires Answered(w, t, keys, |keys|, answers, deleted, clean)
    ensures keys[..|keys|] == keys && answers.Keys == Elements(keys)
    ensures forall i :: 0 <= i < |keys| ==> Agrees(answers[keys[i]], w.remove(t + i, keys[i]))
    ensures forall k :: k in deleted <==> k in answers && (answers[k].Deleted? || answers[k].NoSuchKey?)
    ensures clean <==> forall k :: k in answers ==> !answers[k].Failed?
  {
    hide Agrees;
    assert keys[..|keys|] == keys;
  }

  /** The keys whose delete gets no answer. */
  function UnansweredKeys(w: World, t: nat, keys: seq<Key>): seq<Key> {
    if keys == [] then []
    else
      var n := |keys| - 1;
      UnansweredKeys(w, t, keys[..n]) + if w.remove(t + n, keys[n]).Unanswered? then [keys[n]] else []
  }

  lemma {:induction false} SilentAreUnanswered(w: World, t: nat, keys: seq<Key>, answers: map<Key, Answer>)
    requires Elements(keys) <= answers.Keys
    requires forall i :: 0 <= i < |keys| ==> Agrees(answers[keys[i]], w.remove(t + i, keys[i]))
    ensures SilentKeys(keys, answers) == UnansweredKeys(w, t, keys)
  {
    if keys != [] {
      var n := |keys| - 1;
      assert keys[n] in Elements(keys);
      SilentAreUnanswered(w, t, keys[..n], answers);
    }
  }

  lemma {:induction false} UnansweredAt(w: World, t: nat, keys: seq<Key>, k: Key) returns (i: nat)
    requires k in UnansweredKeys(w, t, keys)
    ensures i < |keys| && keys[i] == k && w.remove(t + i, k).Unanswered?
  {
    var n := |keys| - 1;
    if k in UnansweredKeys(w, t, keys[..n]) {
      i := UnansweredAt(w, t, keys[..n], k);
    } else {
      i := n;
    }
  }

  /** What the transaction does from the recheck on, for the keys asked for. */
  function Deletion(w: World, t: nat, asked: seq<Key>, stats: seq<Step>, ok: bool): seq<Step> {
    [SweepRecheck(Elements(asked))] + Removals(w, t, asked) + stats + [if ok then SweepCommit else SweepAbort]
  }

  lemma DeletionFollows(w: World, t: nat, asked: seq<Key>, stats: seq<Step>, ok: bool, own: seq<Step>)
    ensures var end := if ok then SweepCommit else SweepAbort;
      own + [SweepRecheck(Elements(asked))] + Removals(w, t, asked) + stats + [end]
        == own + Deletion(w, t, asked, stats, ok)
  {
    hide Removals;
  }

  /** After all deletes, one stat for each without an answer. */
  ghost predicate StatsFor(w: World, t: nat, asked: seq<Key>, stats: seq<Step>) {
    AreStats(w, t + |asked|, UnansweredKeys(w, t, asked), stats)
  }

  /** The stats so far, after i keys. */
  ghost predicate Confirming(w: World, t: nat, now: nat, keys: seq<Key>, i: nat, answers: map<Key, Answer>,
                             absent: set<Key>, stats: seq<Step>) {
    && i <= |keys| && now == t + |stats|
    && AreStats(w, t, SilentKeys(keys[..i], answers), stats)
    && forall k :: k in absent <==> SweepStat(k, false) in stats
  }

  lemma NoStats(w: World, t: nat, keys: seq<Key>, answers: map<Key, Answer>, own: seq<Step>)
    ensures Confirming(w, t, t, keys, 0, answers, {}, []) && own + [] == own
  {
  }

  lemma NoStatMore(w: World, t: nat, now: nat, keys: seq<Key>, i: nat, answers: map<Key, Answer>, absent: set<Key>,
                   stats: seq<Step>)
    requires i < |keys| && Confirming(w, t, now, keys, i, answers, absent, stats)
      && !(keys[i] in answers && answers[keys[i]].Silent?)
    ensures Confirming(w, t, now, keys, i + 1, answers, absent, stats)
  {
    hide AreStats;
    assert keys[..i + 1][..i] == keys[..i];
    assert SilentKeys(keys[..i], answers) + [] == SilentKeys(keys[..i], answers);
  }

  lemma OneStatMore(w: World, t: nat, now: nat, keys: seq<Key>, i: nat, answers: map<Key, Answer>, absent: set<Key>,
                    stats: seq<Step>,
                    own: seq<Step>, more: set<Key>, step: Step)
    requires i < |keys| && Confirming(w, t, now, keys, i, answers, absent, stats) && keys[i] in answers
      && answers[keys[i]].Silent?
    requires IsStat(w, now, keys[i], step, more)
    ensures Confirming(w, t, now + 1, keys, i + 1, answers, absent + more, stats + [step])
    ensures own + stats + [step] == own + (stats + [step])
  {
    assert keys[..i + 1][..i] == keys[..i];
  }

  lemma StatsConfirm(w: World, t: nat, now: nat, keys: seq<Key>, answers: map<Key, Answer>, absent: set<Key>,
                     stats: seq<Step>)
    requires Confirming(w, t, now, keys, |keys|, answers, absent, stats)
    ensures AreStats(w, t, SilentKeys(keys, answers), stats) && now == t + |SilentKeys(keys, answers)|
    ensures forall k :: k in absent <==> SweepStat(k, false) in stats
  {
    assert keys[..|keys|] == keys;
  }

  lemma RemovedIn(w: World, t: nat, asked: seq<Key>, k: Key)
    ensures SweepRemoved(k) in Removals(w, t, asked)
      <==> exists i :: 0 <= i < |asked| && asked[i] == k && w.remove(t + i, k).Done?
    ensures SweepStat(k, false) !in Removals(w, t, asked)
  {
    if SweepRemoved(k) in Removals(w, t, asked) {
      var i :| 0 <= i < |asked| && Removals(w, t, asked)[i] == SweepRemoved(k);
      assert asked[i] == k && w.remove(t + i, k).Done?;
    }
    if i :| 0 <= i < |asked| && asked[i] == k && w.remove(t + i, k).Done? {
      assert Removals(w, t, asked)[i] == SweepRemoved(k);
    }
  }

  lemma GoneByDeletion(w: World, t: nat, asked: seq<Key>, stats: seq<Step>, ok: bool, k: Key)
    requires StatsFor(w, t, asked, stats)
    ensures GoneBy(Deletion(w, t, asked, stats, ok), k)
      <==> SweepRemoved(k) in Removals(w, t, asked) || SweepStat(k, false) in stats
  {
    hide Removals, UnansweredKeys;
    RemovedIn(w, t, asked, k);
  }

  /** A key whose row the commit deletes was asked for, and confirmed. */
  lemma GoneIsConfirmed(w: World, t: nat, asked: seq<Key>, stats: seq<Step>, k: Key, from: nat, to: nat)
    requires StatsFor(w, t, asked, stats) && from <= t && t + |asked| + |stats| <= to
    requires SweepRemoved(k) in Removals(w, t, asked) || SweepStat(k, false) in stats
    ensures k in asked && Confirmed(w, from, to, k)
  {
    hide Removals;
    RemovedIn(w, t, asked, k);
    if SweepStat(k, false) in stats {
      var j :| 0 <= j < |stats| && stats[j] == SweepStat(k, false);
      var silent := UnansweredKeys(w, t, asked);
      assert silent[j] == k && w.stat(t + |asked| + j, k);
      var i := UnansweredAt(w, t, asked, k);
      assert StatAnswered(w, t + i, to, k);
    }
  }

  lemma DeletedAreDone(w: World, t: nat, asked: seq<Key>, answers: map<Key, Answer>, deleted: set<Key>)
    requires answers.Keys == Elements(asked) && NoRepeats(Self, asked)
    requires forall i :: 0 <= i < |asked| ==> Agrees(answers[asked[i]], w.remove(t + i, asked[i]))
    requires forall k :: k in deleted <==> k in answers && (answers[k].Deleted? || answers[k].NoSuchKey?)
    ensures forall k :: k in deleted <==> SweepRemoved(k) in Removals(w, t, asked)
  {
    hide Removals;
    forall k ensures k in deleted <==> SweepRemoved(k) in Removals(w, t, asked) {
      RemovedIn(w, t, asked, k);
      if k in deleted {
        assert k in Elements(asked);
        var i :| 0 <= i < |asked| && asked[i] == k;
      }
      if i :| 0 <= i < |asked| && asked[i] == k && w.remove(t + i, k).Done? {
        assert asked[i] in Elements(asked);
      }
    }
  }

  /** What the parts of the transaction add up to. */
  lemma DeletionIs(w: World, t: nat, looked: seq<Key>, asked: seq<Key>, answers: map<Key, Answer>, clean: bool,
                   deleted: set<Key>, absent: set<Key>, stats: seq<Step>, from: nat, to: nat)
    requires Ascending(Self, asked) && Elements(asked) <= Elements(looked) && answers.Keys == Elements(asked)
    requires forall i :: 0 <= i < |asked| ==> Agrees(answers[asked[i]], w.remove(t + i, asked[i]))
    requires forall k :: k in deleted <==> k in answers && (answers[k].Deleted? || answers[k].NoSuchKey?)
    requires AreStats(w, t + |asked|, SilentKeys(asked, answers), stats)
    requires forall k :: k in absent <==> SweepStat(k, false) in stats
    requires clean <==> forall k :: k in answers ==> !answers[k].Failed?
    requires from <= t && t + |asked| + |SilentKeys(asked, answers)| <= to
    ensures StatsFor(w, t, asked, stats)
    ensures Deletes(Deletion(w, t, asked, stats, true), true, deleted + absent)
      && Deletes(Deletion(w, t, asked, stats, false), false, {})
    ensures AllConfirmed(w, from, to, deleted + absent, looked)
    ensures !clean ==> Excused(w, from, to)
    ensures clean ==> NoneRejected(w, t, asked)
  {
    hide Removals, Deletion, GoneBy, Confirmed, AreStats, UnansweredKeys, SilentKeys;
    AscendingIsDistinct(Self, asked);
    SilentAreUnanswered(w, t, asked, answers);
    DeletedAreDone(w, t, asked, answers, deleted);
    StatsAreMany(w, t + |asked|, SilentKeys(asked, answers), stats);
    forall k ensures k in deleted + absent <==> GoneBy(Deletion(w, t, asked, stats, true), k) {
      GoneByDeletion(w, t, asked, stats, true, k);
    }
    forall k | k in deleted + absent ensures k in looked && Confirmed(w, from, to, k) {
      GoneIsConfirmed(w, t, asked, stats, k, from, to);
      assert k in Elements(asked);
    }
    if !clean {
      var k :| k in answers && answers[k].Failed?;
      assert k in Elements(asked);
      var i :| 0 <= i < |asked| && asked[i] == k;
      assert w.remove(t + i, k).Rejected?;
    } else {
      forall i | 0 <= i < |asked| ensures !w.remove(t + i, asked[i]).Rejected? {
        assert asked[i] in Elements(asked);
      }
    }
  }

  lemma StatsAreMany(w: World, t: nat, keys: seq<Key>, stats: seq<Step>)
    requires AreStats(w, t, keys, stats)
    ensures |stats| == |keys|
  {
  }

  // ---- excuses ----

  lemma FailingAt(w: World, from: nat, to: nat, t: nat)
    requires from <= t < to && w.fails(t)
    ensures Failing(w, from, to)
  {
  }

  lemma FailingLater(w: World, from: nat, mid: nat, to: nat)
    requires from <= mid <= to
    ensures Failing(w, from, mid) || Failing(w, mid, to) ==> Failing(w, from, to)
  {
  }

  lemma FailingExcuses(w: World, from: nat, to: nat)
    requires Failing(w, from, to)
    ensures Excused(w, from, to)
  {
  }

  lemma CanceledExcuses(w: World, from: nat, to: nat, uploads: seq<Id>, answers: seq<AbortAnswer>)
    requires |answers| == |uploads| && Canceled in answers && from + 1 + |uploads| <= to
    requires forall i :: 0 <= i < |uploads| ==> answers[i] == w.abort(from + 1 + i, uploads[i])
    ensures Excused(w, from, to)
  {
    var i :| 0 <= i < |answers| && answers[i] == Canceled;
    assert w.abort(from + 1 + i, uploads[i]).Canceled?;
  }

  lemma ExcusedLater(w: World, from: nat, mid: nat, to: nat)
    requires from <= mid <= to
    ensures Excused(w, from, mid) || Excused(w, mid, to) || Failing(w, mid, to) ==> Excused(w, from, to)
  {
  }

  lemma ConfirmedLater(w: World, from: nat, a: nat, b: nat, to: nat, k: Key)
    requires from <= a <= b <= to && Confirmed(w, a, b, k)
    ensures Confirmed(w, from, to, k)
  {
    var t :| a <= t < b && (w.remove(t, k).Done? || (w.remove(t, k).Unanswered? && StatAnswered(w, t, b, k)));
    if !w.remove(t, k).Done? { assert StatAnswered(w, t, to, k); }
  }

  // ---- the shape of a run ----

  /** A sweep's own steps: its scans use the grace period; it neither marks nor purges. */
  predicate SweepOnly(grace: Time, own: seq<Step>) {
    forall i :: 0 <= i < |own| ==> InSweep(grace, own[i])
  }

  predicate InSweep(grace: Time, step: Step) {
    || (step.SweepScan? && step.grace == grace) || step.SweepLock? || step.SweepRecheck? || step.SweepRemoved?
    || step.SweepFailed? || step.SweepStat? || step.SweepCommit? || step.SweepAbort?
  }

  /** The state of the loop over the batches. */
  ghost predicate Swept(w: World, grace: Time, from: nat, to: nat, own: seq<Step>, visited: seq<Key>,
                        deleted: set<Key>, ok: bool) {
    && own != [] && own[0] == Mark && SweepOnly(grace, own[1..])
    && Ascending(Self, visited) && deleted <= Elements(visited)
    && (forall k :: k in deleted ==> GoneBy(own, k) && Confirmed(w, from, to, k))
    && (!ok ==> Excused(w, from, to))
  }

  predicate UpToKey(visited: seq<Key>, afterKey: Key) {
    forall k :: k in visited ==> k == afterKey || Before(k, afterKey)
  }

  lemma SweepBegins(w: World, grace: Time, t: nat)
    ensures Swept(w, grace, t, t, [Mark], [], {}, true) && UpToKey([], "")
  {
  }

  lemma SweptIs(w: World, grace: Time, from: nat, mid: nat, to: nat, own: seq<Step>, visited: seq<Key>,
                deleted: set<Key>, ok: bool)
    requires from <= mid <= to && Swept(w, grace, mid, to, own, visited, deleted, ok)
    ensures own != [] && own[0] == Mark && SweepOnly(grace, own[1..]) && Ascending(Self, visited)
      && deleted <= Elements(visited)
    ensures forall k :: k in deleted ==> GoneBy(own, k) && Confirmed(w, from, to, k)
    ensures !ok ==> Excused(w, from, to)
  {
    hide SweepOnly, GoneBy, Confirmed, Excused, Ascending;
    BatchConfirmedLater(w, from, mid, to, deleted);
    ExcusedLater(w, from, mid, to);
  }

  /** It marks first, and ends with a batch that finds nothing to lock. */
  predicate SweptAll(grace: Time, own: seq<Step>) {
    && |own| >= 4 && own[0] == Mark
    && own[|own| - 3].SweepScan? && own[|own| - 3].grace == grace
    && own[|own| - 2] == SweepLock({}) && own[|own| - 1] == SweepAbort
  }

  /** All phases: the purge, and then mark and sweep. */
  predicate FullRun(grace: Time, own: seq<Step>) {
    && |own| >= 4 && own[0].PurgeScan? && IsPurge(own[..4], own[0].cutoff)
    && SweptAll(grace, own[4..])
  }

  predicate OnlyPurges(own: seq<Step>, cutoff: Time) {
    forall i :: 0 <= i < |own| ==>
      own[i] == PurgeScan(cutoff) || own[i].PurgeLock? || own[i].PurgeDelete? || own[i].PurgeAbort?
  }

  /** Closures are purged by an age between these. */
  predicate CutoffsIn(own: seq<Step>, lo: Time, hi: Time) {
    forall i :: 0 <= i < |own| && own[i].PurgeScan? ==> lo <= own[i].cutoff <= hi
  }

  lemma CutoffsFrom(own: seq<Step>, lo: Time, from: Time, hi: Time)
    requires lo <= from && (CutoffsIn(own, from, hi) || (from <= hi && CutoffsIn(own, from, from)))
    ensures CutoffsIn(own, lo, hi)
  {
  }

  lemma NoCutoffs(lo: Time, hi: Time)
    ensures CutoffsIn([], lo, hi)
  {
  }

  /** One more entry: closures that were all older than the cutoff. */
  predicate PurgedBefore(before: seq<Event>, after: seq<Event>, cutoff: Time) {
    && |after| == |before| + 1 && before <= after && after[|before|].Purged?
    && forall k :: k in after[|before|].closures ==> after[|before|].closures[k] < cutoff
  }

  lemma NothingSwept(grace: Time)
    ensures SweepOnly(grace, []) && SweepOnly(grace, [Mark][1..])
  {
  }

  lemma LockingIsSweep(grace: Time, after: Key, cands: set<Key>, keys: set<Key>)
    ensures SweepOnly(grace, [SweepScan(grace, after, cands), SweepLock(keys)])
    ensures SweepOnly(grace, [SweepAbort])
  {
  }

  lemma DeletionIsSweep(grace: Time, w: World, t: nat, asked: seq<Key>, stats: seq<Step>, ok: bool)
    requires StatsFor(w, t, asked, stats)
    ensures SweepOnly(grace, Deletion(w, t, asked, stats, ok))
  {
    hide UnansweredKeys;
    var own := Deletion(w, t, asked, stats, ok);
    forall i | 0 <= i < |own| ensures InSweep(grace, own[i]) {
      if 1 <= i < 1 + |asked| {
        assert own[i] == RemovalStep(w, t + i - 1, asked[i - 1]);
      } else if 1 + |asked| <= i < |own| - 1 {
        assert own[i] == stats[i - 1 - |asked|];
      }
    }
  }

  lemma SweepOnlyJoin(grace: Time, a: seq<Step>, b: seq<Step>)
    requires SweepOnly(grace, a) && SweepOnly(grace, b)
    ensures SweepOnly(grace, a + b)
  {
    forall i | 0 <= i < |a + b| ensures InSweep(grace, (a + b)[i]) {
      if i < |a| { assert InSweep(grace, a[i]); } else { assert InSweep(grace, b[i - |a|]); }
    }
  }

  lemma SweepOnlyMore(grace: Time, own: seq<Step>, batch: seq<Step>)
    requires own != [] && own[0] == Mark && SweepOnly(grace, own[1..]) && SweepOnly(grace, batch)
    ensures (own + batch)[0] == Mark && SweepOnly(grace, (own + batch)[1..])
  {
    SweepOnlyJoin(grace, own[1..], batch);
    assert (own + batch)[1..] == own[1..] + batch;
  }

  lemma SweepsAreGraced(grace: Time, own: seq<Step>)
    requires own == [] || (own[0] == Mark && SweepOnly(grace, own[1..]))
    ensures Graced(grace, own)
  {
    forall i | 1 <= i < |own| ensures InSweep(grace, own[i]) { assert InSweep(grace, own[1..][i - 1]); }
  }

  lemma NoPurges(cutoff: Time)
    ensures OnlyPurges([], cutoff)
  {
  }

  lemma AbortedPurge(cutoff: Time, keys: set<Key>, own: seq<Step>)
    requires own == [PurgeScan(cutoff), PurgeLock(keys), PurgeAbort]
      || own == [PurgeScan(cutoff), PurgeLock(keys), PurgeDelete, PurgeAbort]
    ensures OnlyPurges(own, cutoff)
  {
  }

  lemma PurgeIs(cutoff: Time, keys: set<Key>, own: seq<Step>)
    requires own == [PurgeScan(cutoff), PurgeLock(keys), PurgeDelete, PurgeCommit]
    ensures IsPurge(own, cutoff) && own[..3] == [PurgeScan(cutoff), PurgeLock(keys), PurgeDelete]
  {
  }

  lemma PurgesAreGraced(grace: Time, own: seq<Step>, cutoff: Time, ok: bool)
    requires if ok then IsPurge(own, cutoff) else OnlyPurges(own, cutoff)
    ensures Graced(grace, own) && CutoffsIn(own, cutoff, cutoff)
  {
  }

  lemma RunIsGraced(grace: Time, purge: seq<Step>, sweep: seq<Step>, cutoff: Time, ok: bool)
    requires IsPurge(purge, cutoff)
    requires sweep == [] || (sweep[0] == Mark && SweepOnly(grace, sweep[1..]))
    requires ok ==> SweptAll(grace, sweep)
    ensures Graced(grace, purge + sweep) && (ok ==> FullRun(grace, purge + sweep))
    ensures CutoffsIn(purge + sweep, cutoff, cutoff)
  {
    var own := purge + sweep;
    forall i | 5 <= i < |own| ensures InSweep(grace, own[i]) { assert InSweep(grace, sweep[1..][i - 5]); }
    assert own[4..] == sweep && own[..4] == purge;
  }

  // ---- the batches of a sweep ----

  lemma NothingVisited()
    ensures Ascending(Self, [])
  {
  }

  lemma BatchConfirmedLater(w: World, from: nat, mid: nat, to: nat, deleted: set<Key>)
    requires from <= mid <= to && forall k :: k in deleted ==> Confirmed(w, mid, to, k)
    ensures forall k :: k in deleted ==> Confirmed(w, from, to, k)
  {
    hide Confirmed;
    forall k | k in deleted ensures Confirmed(w, from, to, k) { ConfirmedLater(w, from, mid, to, to, k); }
  }

  lemma ConfirmedWider(w: World, from: nat, mid: nat, to: nat, deleted: set<Key>, looked: seq<Key>)
    requires from <= mid <= to && AllConfirmed(w, from, mid, deleted, looked)
    ensures AllConfirmed(w, from, to, deleted, looked)
  {
    hide Confirmed;
    forall k | k in deleted ensures Confirmed(w, from, to, k) { ConfirmedLater(w, from, from, mid, to, k); }
  }

  lemma ConfirmedBefore(w: World, from: nat, mid: nat, to: nat, deleted: set<Key>, looked: seq<Key>)
    requires from <= mid <= to && AllConfirmed(w, mid, to, deleted, looked)
    ensures AllConfirmed(w, from, to, deleted, looked)
  {
    hide Confirmed;
    forall k | k in deleted ensures Confirmed(w, from, to, k) { ConfirmedLater(w, from, mid, to, to, k); }
  }

  lemma BatchConfirmed(w: World, from: nat, mid: nat, to: nat, own: seq<Step>, batch: seq<Step>, deleted: set<Key>,
                       gone: set<Key>)
    requires from <= mid <= to
    requires forall k :: k in deleted ==> GoneBy(own, k) && Confirmed(w, from, mid, k)
    requires forall k :: k in gone ==> GoneBy(batch, k) && Confirmed(w, mid, to, k)
    ensures forall k :: k in deleted + gone ==> GoneBy(own + batch, k) && Confirmed(w, from, to, k)
  {
    hide Confirmed;
    forall k | k in deleted + gone ensures GoneBy(own + batch, k) && Confirmed(w, from, to, k) {
      if k in deleted {
        ConfirmedLater(w, from, from, mid, to, k);
      } else {
        ConfirmedLater(w, from, mid, to, to, k);
      }
    }
  }

  lemma NothingRejected(w: World, t: nat)
    ensures NoneRejected(w, t, [])
  {
  }

  lemma NoneConfirmed(w: World, from: nat, to: nat, looked: seq<Key>)
    ensures AllConfirmed(w, from, to, {}, looked)
  {
  }

  lemma NoneGone(own: seq<Step>)
    requires own == [] || own == [SweepAbort]
    ensures Deletes(own, true, {}) && Deletes(own, false, {})
  {
  }

  /** A whole batch: the locking and what follows. */
  lemma BatchIs(grace: Time, after: Key, cands: set<Key>, keys: set<Key>, rest: seq<Step>,
                w: World, t: nat, asked: seq<Key>, stats: seq<Step>, ok: bool, aborted: bool, before: seq<Step>)
    requires if aborted then rest == [SweepAbort]
             else rest == Deletion(w, t, asked, stats, ok) && StatsFor(w, t, asked, stats)
    ensures var own := [SweepScan(grace, after, cands), SweepLock(keys)] + rest;
      && SweepOnly(grace, own) && |own| >= 3 && own[..2] == [SweepScan(grace, after, cands), SweepLock(keys)]
        && own[2..] == rest
      && (forall k, d :: Deletes(rest, k, d) ==> Deletes(own, k, d))
      && before + [SweepScan(grace, after, cands), SweepLock(keys)] + rest == before + own
  {
    hide Removals, UnansweredKeys, SweepOnly, StatsFor;
    var head := [SweepScan(grace, after, cands), SweepLock(keys)];
    LockingIsSweep(grace, after, cands, keys);
    if !aborted { DeletionIsSweep(grace, w, t, asked, stats, ok); }
    SweepOnlyJoin(grace, head, rest);
    forall k ensures GoneBy(head + rest, k) <==> GoneBy(rest, k) {}
  }

  /** One more batch. */
  lemma SweptMore(w: World, grace: Time, from: nat, mid: nat, to: nat, own: seq<Step>, batch: seq<Step>,
                  visited: seq<Key>, looked: seq<Key>, deleted: set<Key>, gone: set<Key>,
                  ok: bool, clean: bool, err: bool, s: State, afterKey: Key)
    requires Swept(w, grace, from, mid, own, visited, deleted, ok) && UpToKey(visited, afterKey) && from <= mid <= to
    requires SweepOnly(grace, batch) && Ascending(Self, looked) && forall k :: k in looked ==>
      k in Candidates(s, grace, afterKey)
    requires Deletes(batch, !err, gone) && AllConfirmed(w, mid, to, gone, looked)
    requires (err ==> Failing(w, mid, to)) && (!clean ==> Excused(w, mid, to))
    requires !err && looked == [] ==>
      |batch| >= 3 && batch[2..] == [SweepAbort]
      && batch[..2] == [SweepScan(grace, afterKey, Candidates(s, grace, afterKey)), SweepLock(Elements(looked))]
    ensures Swept(w, grace, from, to, own + batch, visited + looked, deleted + gone, ok && clean && !err)
    ensures looked != [] ==> UpToKey(visited + looked, looked[|looked| - 1])
    ensures !err && looked == [] ==> SweptAll(grace, own + batch)
  {
    hide SweepOnly, GoneBy, Confirmed, Excused, Failing, Ascending, Candidates;
    SweepOnlyMore(grace, own, batch);
    BatchConfirmed(w, from, mid, to, own, batch, deleted, gone);
    ExcusedLater(w, from, mid, to);
    AfterKey(looked, afterKey, s, grace);
    BatchesAscend(visited, looked, afterKey);
    if looked != [] {
      VisitedUpTo(visited, looked, afterKey);
    } else if !err {
      LastBatchIsEmpty(grace, own, batch, afterKey, Candidates(s, grace, afterKey), looked);
    }
  }

  lemma AfterKey(looked: seq<Key>, afterKey: Key, s: State, grace: Time)
    requires forall k :: k in looked ==> k in Candidates(s, grace, afterKey)
    ensures forall k :: k in looked ==> Before(afterKey, k)
    ensures looked != [] ==> Before(afterKey, looked[|looked| - 1])
  {
    if looked != [] { assert looked[|looked| - 1] in looked; }
  }

  lemma LastIsLater(looked: seq<Key>, afterKey: Key, s: State, grace: Time)
    requires forall k :: k in looked ==> k in Candidates(s, grace, afterKey)
    ensures looked != [] ==>
      looked[|looked| - 1] in looked && Before(afterKey, looked[|looked| - 1]) && looked[|looked| - 1] != ""
  {
    if looked != [] { assert looked[|looked| - 1] in Candidates(s, grace, afterKey); }
  }

  lemma LastBatchIsEmpty(grace: Time, own: seq<Step>, batch: seq<Step>, after: Key, cands: set<Key>,
                         looked: seq<Key>)
    requires own != [] && own[0] == Mark && looked == [] && |batch| >= 3 && batch[2..] == [SweepAbort]
    requires batch[..2] == [SweepScan(grace, after, cands), SweepLock(Elements(looked))]
    ensures SweptAll(grace, own + batch)
  {
    assert Elements(looked) == {};
    assert |batch| == 3 && batch[0] == batch[..2][0] && batch[1] == batch[..2][1] && batch[2] == batch[2..][0];
  }

  lemma VisitedUpTo(visited: seq<Key>, looked: seq<Key>, afterKey: Key)
    requires forall k :: k in visited ==> k == afterKey || Before(k, afterKey)
    requires Ascending(Self, looked) && looked != [] && Before(afterKey, looked[|looked| - 1])
    ensures forall k :: k in visited + looked ==> k == looked[|looked| - 1] || Before(k, looked[|looked| - 1])
  {
    var last := looked[|looked| - 1];
    LastIsGreatest(looked);
    forall k | k in visited ensures Before(k, last) {
      if k != afterKey { BeforeIsTransitive(k, afterKey, last); }
    }
  }

  lemma ReachesAllRows(s: State, reached: set<Key>)
    requires s.closures.Keys * s.rows.Keys <= reached <= Kept(s) * s.rows.Keys
    requires forall k, r :: k in reached && r in Refs(RowRefs(s.rows), k) && r in s.rows ==> r in reached
    ensures forall k :: k in s.rows ==> (k in reached <==> k in Kept(s))
  {
    var graph := RowRefs(s.rows);
    var seeds := s.closures.Keys * s.rows.Keys;
    ReachIsLeast(graph, seeds, reached + (Universe(graph, seeds) - s.rows.Keys));
  }

  lemma AscendingIsFresh(s: seq<Key>, i: nat)
    requires Ascending(Self, s) && i < |s|
    ensures s[i] !in s[..i]
  {
    if s[i] in s[..i] {
      var j :| 0 <= j < i && s[j] == s[i];
      BeforeIsTotal(Self(s[j]), Self(s[i]));
    }
  }

  lemma LastIsGreatest(s: seq<Key>)
    requires Ascending(Self, s) && s != []
    ensures forall k :: k in s ==> k == s[|s| - 1] || Before(k, s[|s| - 1])
  {
    forall k | k in s ensures k == s[|s| - 1] || Before(k, s[|s| - 1]) {
      var i :| 0 <= i < |s| && s[i] == k;
      assert i < |s| - 1 ==> Before(Self(s[i]), Self(s[|s| - 1]));
    }
  }

  lemma BatchesAscend(a: seq<Key>, b: seq<Key>, mid: Key)
    requires Ascending(Self, a) && Ascending(Self, b)
    requires forall k :: k in a ==> k == mid || Before(k, mid)
    requires forall k :: k in b ==> Before(mid, k)
    ensures Ascending(Self, a + b)
  {
    forall i, j | 0 <= i < j < |a + b| ensures Before(Self((a + b)[i]), Self((a + b)[j])) {
      if i < |a| && j >= |a| {
        assert a[i] in a && b[j - |a|] in b;
        if a[i] != mid { BeforeIsTransitive(a[i], mid, b[j - |a|]); }
      } else if i < |a| {
        assert Before(Self(a[i]), Self(a[j]));
      } else {
        assert Before(Self(b[i - |a|]), Self(b[j - |a|]));
      }
    }
  }

  ghost function Later(keys: set<Key>, a: Key): set<Key> {
    set k | k in keys && Before(a, k)
  }

  lemma LaterKeysShrink(keys: set<Key>, a: Key, b: Key)
    requires Before(a, b) && b in keys
    ensures Later(keys, b) < Later(keys, a)
  {
    forall k | k in keys && Before(b, k) ensures Before(a, k) {
      BeforeIsTransitive(a, b, k);
    }
    BeforeIsTotal(b, b);
    assert b in Later(keys, a) && b !in Later(keys, b);
  }
}
