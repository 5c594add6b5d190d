/** Who takes which steps: an actor's own steps among those of everyone else, and what the
    others leave alone meanwhile. */
module GcActors {
  import opened Wrappers
  import opened Order
  import opened GcState
  import opened GcSteps
  import opened GcSafety

  const DeletionBatchSize: nat := 1000

  /** The one garbage collection the advisory lock admits, a push request, or a pin request. */
  datatype Actor = Collector | Pusher(id: Id) | Pinner(conn: nat)

  /** The steps of a garbage collection; others may expire pushes too, so Expire is not one. */
  predicate IsGcStep(step: Step) {
    || step.Mark? || step.SweepScan? || step.SweepLock? || step.SweepRecheck? || step.SweepRemoved?
    || step.SweepFailed? || step.SweepStat? || step.SweepCommit? || step.SweepAbort? || step.PurgeScan?
    || step.PurgeLock? || step.PurgeDelete? || step.PurgeCommit? || step.PurgeAbort?
  }

  /** The steps only the actor itself takes. */
  predicate Mine(me: Actor, step: Step) {
    match me
    case Collector => IsGcStep(step)
    case Pusher(id) =>
      || (step.Insert? && step.id == id) || (step.Lookup? && step.id == id) || (step.LateLookup? && step.id == id)
      || (step.DropPending? && step.id == id) || (step.Put? && step.id == id) || (step.LatePut? && step.id == id)
      || (step.Adopt? && step.id == id) || (step.CommitClosure? && step.id == id) || (step.CommitPush? && step.id == id)
    case Pinner(conn) =>
      || (step.PinLock? && step.conn == conn) || (step.PinCommit? && step.conn == conn)
      || (step.PinAbort? && step.conn == conn)
  }

  // ---- statements that skip nothing they could take ----

  /** What LockObjectsReadyForDeletion selects after a key. */
  function Candidates(s: State, grace: Time, afterKey: Key): set<Key> {
    set k | k in s.rows && Ripe(s, grace, k) && !IsPending(s, k) && Before(afterKey, k)
  }

  /** The selected keys that are tombstones still. */
  function Lockable(s: State): set<Key>
    requires s.sweep.Scanned?
  {
    set k | k in s.sweep.cands && k in s.rows && s.rows[k].deletedAt.Some? && s.rows[k].firstDeletedAt.Some?
  }

  /** The selected closures that are old and unshared still. */
  function Purgeable(s: State): set<Key>
    requires s.purge.PurgeScanned?
  {
    set k | k in s.purge.cands && k in s.closures && s.closures[k] < s.purge.cutoff && !IsShared(s, k)
  }

  /** The first `limit` keys of a set, in byte order. */
  ghost predicate FirstOf(keys: set<Key>, all: set<Key>, limit: nat) {
    exists q: seq<Key> :: Ascending(Self, q) && Elements(q) == all && keys == Elements(UpTo(q, limit))
  }

  function UpTo<T>(q: seq<T>, limit: nat): seq<T> {
    if |q| > limit then q[..limit] else q
  }

  /** Where the protocol lets a statement take less, the server takes all it can. */
  ghost predicate Thorough(s: State, step: Step) {
    match step
    case SweepScan(grace, after, cands) => cands == Candidates(s, grace, after)
    case SweepLock(keys) => s.sweep.Scanned? && FirstOf(keys, Lockable(s), DeletionBatchSize)
    case PurgeLock(keys) => s.purge.PurgeScanned? && keys == Purgeable(s)
    case _ => true
  }

  // ---- one actor among the others ----

  ghost predicate IsTrace(me: Actor, states: seq<State>, steps: seq<Step>) {
    && |states| == |steps| + 1
    && forall i :: 0 <= i < |steps| ==>
      Next(states[i], steps[i], states[i + 1]) && (Mine(me, steps[i]) ==> Thorough(states[i], steps[i]))
  }

  /** The actor's own steps, in order. */
  function Own(me: Actor, steps: seq<Step>): seq<Step> {
    if steps == [] then []
    else Own(me, steps[..|steps| - 1]) + if Mine(me, steps[|steps| - 1]) then [steps[|steps| - 1]] else []
  }

  /** From s to t the actor took the steps `own`, and the others any others in between. */
  ghost predicate Served(me: Actor, s: State, own: seq<Step>, t: State) {
    exists states, steps :: IsTrace(me, states, steps) && states[0] == s && states[|steps|] == t
      && Own(me, steps) == own
  }

  lemma ServedNothing(me: Actor, s: State)
    ensures Served(me, s, [], s)
  {
    assert IsTrace(me, [s], []) && [s][0] == s && Own(me, []) == [];
  }

  lemma ServedStep(me: Actor, s: State, step: Step, t: State)
    requires Next(s, step, t) && (Mine(me, step) ==> Thorough(s, step))
    ensures Served(me, s, if Mine(me, step) then [step] else [], t)
  {
    var states, steps := [s, t], [step];
    assert steps[..0] == [] && IsTrace(me, states, steps) && states[0] == s && states[|steps|] == t;
    assert Own(me, steps) == if Mine(me, step) then [step] else [];
  }

  lemma {:induction false} OwnConcat(me: Actor, a: seq<Step>, b: seq<Step>)
    ensures Own(me, a + b) == Own(me, a) + Own(me, b)
  {
    if b == [] {
      assert a + b == a;
    } else {
      var init := b[..|b| - 1];
      OwnConcat(me, a, init);
      assert (a + b)[..|a + b| - 1] == a + init;
    }
  }

  lemma JoinTraces(me: Actor, x: seq<State>, m: seq<Step>, y: seq<State>, n: seq<Step>)
    requires IsTrace(me, x, m) && IsTrace(me, y, n) && x[|m|] == y[0]
    ensures IsTrace(me, x + y[1..], m + n) && (x + y[1..])[0] == x[0] && (x + y[1..])[|m + n|] == y[|n|]
  {
    hide Next, Mine, Thorough;
    var states, steps := x + y[1..], m + n;
    forall i | 0 <= i < |steps|
      ensures Next(states[i], steps[i], states[i + 1]) && (Mine(me, steps[i]) ==> Thorough(states[i], steps[i]))
    {
      if i < |m| {
        assert states[i] == x[i] && states[i + 1] == x[i + 1] && steps[i] == m[i];
      } else {
        assert states[i] == y[i - |m|] && states[i + 1] == y[i + 1 - |m|] && steps[i] == n[i - |m|];
      }
    }
  }

  lemma ServedThen(me: Actor, s: State, a: seq<Step>, t: State, b: seq<Step>, u: State)
    requires Served(me, s, a, t) && Served(me, t, b, u)
    ensures Served(me, s, a + b, u)
  {
    hide Next, Mine, Thorough, Own;
    var x, m :| IsTrace(me, x, m) && x[0] == s && x[|m|] == t && Own(me, m) == a;
    var y, n :| IsTrace(me, y, n) && y[0] == t && y[|n|] == u && Own(me, n) == b;
    OwnConcat(me, m, n);
    JoinTraces(me, x, m, y, n);
  }

  /** Some step, the actor's own or not, comes next. */
  lemma ServedAlso(me: Actor, s: State, own: seq<Step>, t: State, step: Step, u: State)
    requires Served(me, s, own, t) && Next(t, step, u) && Thorough(t, step)
    ensures Served(me, s, if Mine(me, step) then own + [step] else own, u)
  {
    hide Next, Mine, Thorough, Served;
    ServedStep(me, t, step, u);
    ServedThen(me, s, own, t, if Mine(me, step) then [step] else [], u);
    assert own + [] == own;
  }

  lemma {:induction false} TraceKeepsInv(me: Actor, states: seq<State>, steps: seq<Step>, n: nat)
    requires IsTrace(me, states, steps) && Inv(states[0]) && n < |states|
    ensures Inv(states[n])
  {
    hide Inv, Thorough;
    if n > 0 {
      TraceKeepsInv(me, states, steps, n - 1);
      StepKeepsInv(states[n - 1], steps[n - 1], states[n]);
    }
  }

  lemma ServedKeepsInv(me: Actor, s: State, own: seq<Step>, t: State)
    requires Served(me, s, own, t) && Inv(s)
    ensures Inv(t)
  {
    hide Inv, Next, Mine, Thorough;
    var states, steps :| IsTrace(me, states, steps) && states[0] == s && states[|steps|] == t && Own(me, steps) == own;
    TraceKeepsInv(me, states, steps, |steps|);
  }

  lemma TimePasses(s: State, step: Step, t: State)
    requires Next(s, step, t)
    ensures s.now <= t.now
  {
    if !IsPushStep(step) {
      OtherStepsLeavePushes(s, step, t);
    } else if WritesRows(step) {
      WritingPushStep(s, step, t);
    } else {
      QuietPushStep(s, step, t);
    }
    hide Next;
  }

  lemma {:induction false} TraceTakesTime(me: Actor, states: seq<State>, steps: seq<Step>, n: nat)
    requires IsTrace(me, states, steps) && n < |states|
    ensures states[0].now <= states[n].now
  {
    hide Next, Mine, Thorough;
    if n > 0 {
      TraceTakesTime(me, states, steps, n - 1);
      TimePasses(states[n - 1], steps[n - 1], states[n]);
    }
  }

  lemma ServedTakesTime(me: Actor, s: State, own: seq<Step>, t: State)
    requires Served(me, s, own, t)
    ensures s.now <= t.now
  {
    hide Next, Mine, Thorough;
    var states, steps :| IsTrace(me, states, steps) && states[0] == s && states[|steps|] == t && Own(me, steps) == own;
    TraceTakesTime(me, states, steps, |steps|);
  }

  // ---- what the others leave alone ----

  /** What the others cannot change: the actor's own transaction and the rows it holds. */
  ghost predicate Respects(me: Actor, s: State, t: State) {
    && s.now <= t.now
    && match me
       case Collector =>
         && t.sweep == s.sweep && t.purge == s.purge && t.log == s.log
         && s.rows.Keys <= t.rows.Keys && s.closures.Keys <= t.closures.Keys
         && (forall k :: k in LockedRows(s) && k in s.rows ==> t.rows[k] == s.rows[k])
         && (forall k :: k in LockedClosures(s) && k in s.closures ==> t.closures[k] == s.closures[k])
       case Pusher(id) =>
         && (id in s.sessions <==> id in t.sessions) && (id in s.sessions ==> t.sessions[id] == s.sessions[id])
         && (id in t.pending ==> id in s.pending && t.pending[id] == s.pending[id])
       case Pinner(conn) =>
         && (conn in s.pinTxs <==> conn in t.pinTxs) && (conn in s.pinTxs ==> t.pinTxs[conn] == s.pinTxs[conn])
  }

  lemma CollectorIsRespected(s: State, step: Step, t: State)
    requires Next(s, step, t) && !IsGcStep(step)
    ensures Respects(Collector, s, t)
  {
    if IsPushStep(step) && !WritesRows(step) {
      QuietPushStep(s, step, t);
    } else {
      WritersRespectLocks(s, step, t);
    }
    hide Next;
  }

  lemma WritersRespectLocks(s: State, step: Step, t: State)
    requires Next(s, step, t) && !IsGcStep(step) && (IsPushStep(step) ==> WritesRows(step))
    ensures Respects(Collector, s, t)
  {
    hide Missing, MayComplete, Old, Orphaned;
  }

  lemma PusherIsRespected(id: Id, s: State, step: Step, t: State)
    requires Next(s, step, t) && !Mine(Pusher(id), step)
    ensures Respects(Pusher(id), s, t)
  {
    if !IsPushStep(step) { OtherStepsLeavePushes(s, step, t); }
  }

  lemma OthersRespect(me: Actor, s: State, step: Step, t: State)
    requires Next(s, step, t) && !Mine(me, step)
    ensures Respects(me, s, t)
  {
    match me
    case Collector => CollectorIsRespected(s, step, t);
    case Pusher(id) => PusherIsRespected(id, s, step, t);
    case Pinner(conn) =>
  }

  lemma RespectsTwice(me: Actor, s: State, t: State, u: State)
    requires Respects(me, s, t) && Respects(me, t, u)
    ensures Respects(me, s, u)
  {
  }

  lemma {:induction false} TraceRespects(me: Actor, states: seq<State>, steps: seq<Step>)
    requires IsTrace(me, states, steps) && Own(me, steps) == []
    ensures Respects(me, states[0], states[|steps|])
  {
    hide Next, Mine, Thorough, Respects;
    if |steps| == 0 {
      RespectsSelf(me, states[0]);
    } else {
      var n := |steps| - 1;
      TraceRespects(me, states[..n + 1], steps[..n]);
      OthersRespect(me, states[n], steps[n], states[n + 1]);
      RespectsTwice(me, states[0], states[n], states[n + 1]);
    }
  }

  lemma RespectsNow(me: Actor, s: State, t: State)
    requires Respects(me, s, t)
    ensures s.now <= t.now
  {
  }

  lemma RespectsSelf(me: Actor, s: State)
    ensures Respects(me, s, s)
  {
  }

  /** Whatever the others do, the invariant and the actor's own transaction stay. */
  lemma OthersKeep(me: Actor, s: State, t: State)
    requires Served(me, s, [], t) && Inv(s)
    ensures Inv(t) && Respects(me, s, t)
  {
    hide Inv, Respects, Next, Mine, Thorough;
    ServedKeepsInv(me, s, [], t);
    var states, steps :| IsTrace(me, states, steps) && states[0] == s && states[|steps|] == t && Own(me, steps) == [];
    TraceRespects(me, states, steps);
  }
}
