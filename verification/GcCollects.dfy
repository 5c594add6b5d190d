/** What a garbage collection does not leave behind: in every trace with the steps the methods
    take, a tombstone of the grace period's age that no push lists is looked at and deleted. */
module GcCollects {
  import opened Wrappers
  import opened Order
  import opened GcState
  import opened GcSteps
  import opened GcSafety
  import opened GcActors
  import opened GcAnswers

  // ---- what ought to be collected ----

  predicate IsTombstone(rows: map<Key, Row>, k: Key) {
    k in rows && rows[k].deletedAt.Some? && rows[k].firstDeletedAt.Some?
  }

  /** The object was marked for the first time a grace period ago, or before. */
  predicate IsOverdue(s: State, k: Key, grace: Time) {
    IsTombstone(s.rows, k) && s.rows[k].firstDeletedAt.value + grace <= s.now
  }

  /** No pending push lists the object. */
  ghost predicate Unlisted(s: State, k: Key) {
    forall id :: id in s.pending ==> k !in s.pending[id].objs
  }

  ghost predicate NeverListed(states: seq<State>, k: Key) {
    forall i :: 0 <= i < |states| ==> Unlisted(states[i], k)
  }

  /** Live, but no closure reaches it. */
  ghost predicate IsLost(s: State, k: Key) {
    k in s.rows && s.rows[k].deletedAt.None? && k !in Kept(s)
  }

  // ---- what the steps of a sweep say ----

  /** The keys the batches have locked. */
  function Looked(own: seq<Step>): set<Key> {
    set i, k | 0 <= i < |own| && own[i].SweepLock? && k in own[i].keys :: k
  }

  /** Those that the rechecks found unlisted still. */
  function Rechecked(own: seq<Step>): set<Key> {
    set i, k | 0 <= i < |own| && own[i].SweepRecheck? && k in own[i].doomed :: k
  }

  /** A scan goes on after a key that was looked at, and a rollback only ends an empty batch. */
  predicate Fits(grace: Time, own: seq<Step>, step: Step) {
    && (step.SweepScan? ==> step.grace == grace && (step.after == "" || step.after in Looked(own)))
    && (step.SweepAbort? ==> own != [] && own[|own| - 1] == SweepLock({}))
  }

  predicate AllFit(grace: Time, own: seq<Step>) {
    forall i :: 0 <= i < |own| ==> Fits(grace, own[..i], own[i])
  }

  /** What is known about an unlisted tombstone once the sweep has taken these steps. */
  ghost predicate Tracked(s: State, own: seq<Step>, k: Key, grace: Time) {
    && (k in s.rows ==> IsOverdue(s, k, grace))
    && LockedRows(s) <= Looked(own)
    && (k !in Looked(own) ==> Awaits(s, own, k))
    && (k in Looked(own) ==> k in Rechecked(own) || (s.sweep.Locked? && k in s.sweep.keys))
    && (GoneBy(own, k) ==> k !in s.rows || (s.sweep.Deleting? && k in s.sweep.gone))
    && (own != [] && own[|own| - 1].SweepLock? ==> s.sweep == Locked(own[|own| - 1].keys))
  }

  /** Its turn is still to come. */
  ghost predicate Awaits(s: State, own: seq<Step>, k: Key) {
    && k in s.rows && (s.sweep.Scanned? ==> k in s.sweep.cands)
    && SweepLock({}) !in own
    && forall x :: x in Looked(own) ==> Before(x, k)
  }

  lemma LookedMore(own: seq<Step>, step: Step)
    ensures Looked(own + [step]) == Looked(own) + if step.SweepLock? then step.keys else {}
    ensures Rechecked(own + [step]) == Rechecked(own) + if step.SweepRecheck? then step.doomed else {}
    ensures forall k ::
      GoneBy(own + [step], k) <==> GoneBy(own, k) || step == SweepRemoved(k) || step == SweepStat(k, false)
    ensures SweepLock({}) in own + [step] <==> SweepLock({}) in own || step == SweepLock({})
  {
    var all := own + [step];
    assert all[|own|] == step && forall i :: 0 <= i < |own| ==> all[i] == own[i];
    forall k | k in Looked(own) ensures k in Looked(all) {
      var i :| 0 <= i < |own| && own[i].SweepLock? && k in own[i].keys;
      assert all[i] == own[i];
    }
    forall k | k in Rechecked(own) ensures k in Rechecked(all) {
      var i :| 0 <= i < |own| && own[i].SweepRecheck? && k in own[i].doomed;
      assert all[i] == own[i];
    }
  }

  // ---- one step ----

  /** Only the mark and the commit of a sweep touch the row of an unlisted object. */
  lemma UnlistedRowStays(s: State, step: Step, t: State, k: Key)
    requires Next(s, step, t) && Unlisted(s, k) && !step.Mark? && !step.SweepCommit?
    ensures (k in t.rows <==> k in s.rows) && (k in s.rows ==> t.rows[k] == s.rows[k])
  {
    if IsClosureStep(step) {
      ClosureStepLeaves(s, step, t);
    } else if IsPushStep(step) && !WritesRows(step) {
      QuietPushStep(s, step, t);
    } else {
      WritesOnlyListed(s, step, t, k);
    }
    hide Next;
  }

  lemma WritesOnlyListed(s: State, step: Step, t: State, k: Key)
    requires Next(s, step, t) && Unlisted(s, k) && !step.Mark? && !step.SweepCommit?
    requires !IsClosureStep(step) && (IsPushStep(step) ==> WritesRows(step))
    ensures (k in t.rows <==> k in s.rows) && (k in s.rows ==> t.rows[k] == s.rows[k])
  {
    hide Missing, CommitUnblocked, Ripe, Unpending;
    if step.Register? {
      var id :| id in s.pending && step.key in s.pending[id].objs;
      assert step.key != k;
    } else if step.CommitClosure? || step.CommitPush? {
      assert k !in s.pending[step.id].objs;
    } else if step.Expire? {
      assert k !in Orphaned(s, Old(s, step.cutoff, step.keep));
    }
  }

  /** The rest of the steps leave the sweep alone. */
  lemma OtherStepsLeaveSweep(s: State, step: Step, t: State)
    requires Next(s, step, t) && (!Mine(Collector, step) || step.Mark? || IsClosureStep(step))
    ensures t.sweep == s.sweep && s.now <= t.now
  {
    if !Mine(Collector, step) {
      OthersRespect(Collector, s, step, t);
    } else if IsClosureStep(step) {
      ClosureStepLeaves(s, step, t);
    }
    hide Next;
    if step.Mark? { MarkLeavesSweep(s, step, t); }
  }

  lemma MarkLeavesSweep(s: State, step: Step, t: State)
    requires Next(s, step, t) && step.Mark?
    ensures t.sweep == s.sweep && s.now == t.now
  {
  }

  lemma MarkLeavesTombstone(s: State, step: Step, t: State, k: Key)
    requires Next(s, step, t) && step.Mark?
    ensures (k in t.rows <==> k in s.rows) && (IsTombstone(s.rows, k) ==> t.rows[k] == s.rows[k])
  {
    hide Kept;
  }

  lemma SweepLeavesTime(s: State, step: Step, t: State)
    requires Next(s, step, t) && Mine(Collector, step) && !step.Mark? && !IsClosureStep(step)
    ensures t.now == s.now
  {
  }

  /** Nothing about the sweep and the row changes but the time. */
  lemma TimeTracks(s: State, t: State, own: seq<Step>, k: Key, grace: Time)
    requires Tracked(s, own, k, grace) && t.sweep == s.sweep && s.now <= t.now
    requires (k in t.rows <==> k in s.rows) && (k in s.rows ==> t.rows[k] == s.rows[k])
    ensures Tracked(t, own, k, grace)
  {
    hide Looked, Rechecked, GoneBy;
  }

  lemma OtherTracks(s: State, own: seq<Step>, step: Step, k: Key, grace: Time)
    requires Tracked(s, own, k, grace) && (step.Mark? || IsClosureStep(step))
    ensures Tracked(s, own + [step], k, grace)
  {
    LookedMore(own, step);
    hide Looked, Rechecked, GoneBy;
  }

  /** Steps that lock, recheck and delete nothing. */
  lemma QuietStepTracks(s: State, step: Step, t: State, own: seq<Step>, k: Key, grace: Time)
    requires Next(s, step, t) && (!Mine(Collector, step) || step.Mark? || IsClosureStep(step))
    requires Tracked(s, own, k, grace) && Unlisted(s, k)
    ensures Tracked(t, if Mine(Collector, step) then own + [step] else own, k, grace)
  {
    OtherStepsLeaveSweep(s, step, t);
    if step.Mark? {
      MarkLeavesTombstone(s, step, t, k);
      assert k in s.rows ==> IsTombstone(s.rows, k);
    } else {
      UnlistedRowStays(s, step, t, k);
    }
    hide Next, Unlisted, Tracked;
    assert Tracked(s, own, k, grace);
    TimeTracks(s, t, own, k, grace);
    if Mine(Collector, step) { OtherTracks(t, own, step, k, grace); }
  }

  lemma ScanTracks(s: State, step: Step, t: State, own: seq<Step>, k: Key, grace: Time)
    requires Next(s, step, t) && step.SweepScan? && Thorough(s, step) && Fits(grace, own, step)
    requires Tracked(s, own, k, grace) && Unlisted(s, k) && k != ""
    ensures Tracked(t, own + [step], k, grace)
  {
    LookedMore(own, step);
    hide Looked, Rechecked, GoneBy;
    if k !in Looked(own) {
      assert Before(step.after, k);
      assert k in Candidates(s, grace, step.after);
    }
  }

  lemma FirstMissed(keys: set<Key>, all: set<Key>, limit: nat, k: Key)
    requires FirstOf(keys, all, limit) && k in all && k !in keys && limit > 0
    ensures keys != {} && forall x :: x in keys ==> Before(x, k)
  {
    var q :| Ascending(Self, q) && Elements(q) == all && keys == Elements(UpTo(q, limit));
    assert k in q && k !in UpTo(q, limit);
    MissedFromPrefix(q, limit, k);
    assert UpTo(q, limit)[0] in keys;
  }

  lemma MissedFromPrefix(q: seq<Key>, limit: nat, k: Key)
    requires Ascending(Self, q) && k in q && k !in UpTo(q, limit)
    ensures |q| > limit && forall x :: x in UpTo(q, limit) ==> Before(x, k)
  {
    var i :| 0 <= i < |q| && q[i] == k;
    assert forall j :: 0 <= j < |UpTo(q, limit)| ==> q[j] == UpTo(q, limit)[j] && UpTo(q, limit)[j] in UpTo(q, limit);
    assert |q| > limit && i >= limit;
    forall x | x in UpTo(q, limit) ensures Before(x, k) {
      var j :| 0 <= j < limit && UpTo(q, limit)[j] == x;
      assert Before(Self(q[j]), Self(q[i]));
    }
  }

  lemma LockTracks(s: State, step: Step, t: State, own: seq<Step>, k: Key, grace: Time)
    requires Next(s, step, t) && step.SweepLock? && Thorough(s, step) && Tracked(s, own, k, grace)
    ensures Tracked(t, own + [step], k, grace)
  {
    LookedMore(own, step);
    hide Looked, Rechecked, GoneBy, FirstOf;
    if k !in Looked(own) && k !in step.keys {
      assert k in Lockable(s);
      FirstMissed(step.keys, Lockable(s), DeletionBatchSize, k);
    }
  }

  lemma RecheckTracks(s: State, step: Step, t: State, own: seq<Step>, k: Key, grace: Time)
    requires Next(s, step, t) && step.SweepRecheck? && Tracked(s, own, k, grace) && Unlisted(s, k) && SweepSafe(s)
    ensures Tracked(t, own + [step], k, grace)
  {
    LookedMore(own, step);
    hide Looked, Rechecked, GoneBy;
  }

  /** What one answer of the bucket changes. */
  lemma EffectIs(s: State, step: Step, t: State)
    requires Next(s, step, t) && (step.SweepRemoved? || step.SweepFailed? || step.SweepStat?)
    ensures t.rows == s.rows && t.now == s.now && s.sweep.Deleting? && t.sweep.Deleting?
    ensures t.sweep.keys == s.sweep.keys && s.sweep.gone <= t.sweep.gone
    ensures step.SweepRemoved? || step == SweepStat(step.key, false) ==>
      step.key in t.sweep.gone && step.key !in t.bucket
  {
  }

  lemma EffectTracks(s: State, step: Step, t: State, own: seq<Step>, k: Key, grace: Time)
    requires Next(s, step, t) && (step.SweepRemoved? || step.SweepFailed? || step.SweepStat?)
    requires Tracked(s, own, k, grace)
    ensures Tracked(t, own + [step], k, grace)
    ensures GoneBy(own + [step], k) ==> GoneBy(own, k) || k !in t.bucket
  {
    EffectIs(s, step, t);
    hide Next;
    LookedMore(own, step);
    hide Looked, Rechecked, GoneBy;
  }

  lemma EndTracks(s: State, step: Step, t: State, own: seq<Step>, k: Key, grace: Time)
    requires Next(s, step, t) && (step.SweepCommit? || step.SweepAbort?) && Fits(grace, own, step)
    requires Tracked(s, own, k, grace) && SweepSafe(s)
    ensures Tracked(t, own + [step], k, grace)
  {
    LookedMore(own, step);
    hide Looked, Rechecked, GoneBy;
  }

  /** A key that counts as gone has lost its bytes. */
  lemma GoneIsErased(s: State, step: Step, t: State, own: seq<Step>, k: Key)
    requires Next(s, step, t) && GoneBy(own + [step], k)
    ensures GoneBy(own, k) || k !in t.bucket
  {
    if step.SweepRemoved? || step.SweepStat? { EffectIs(s, step, t); }
    hide Next;
  }

  lemma StepTracks(s: State, step: Step, t: State, own: seq<Step>, k: Key, grace: Time)
    requires Next(s, step, t) && Inv(s) && Tracked(s, own, k, grace) && Unlisted(s, k) && k != ""
    requires Mine(Collector, step) ==> Thorough(s, step) && Fits(grace, own, step)
    ensures Tracked(t, if Mine(Collector, step) then own + [step] else own, k, grace)
  {
    assert SweepSafe(s);
    hide Next, Inv, SweepSafe, Tracked, Thorough, Fits, Unlisted;
    if !Mine(Collector, step) || step.Mark? || IsClosureStep(step) {
      QuietStepTracks(s, step, t, own, k, grace);
    } else if step.SweepScan? {
      ScanTracks(s, step, t, own, k, grace);
    } else if step.SweepLock? {
      LockTracks(s, step, t, own, k, grace);
    } else if step.SweepRecheck? {
      RecheckTracks(s, step, t, own, k, grace);
    } else if step.SweepCommit? || step.SweepAbort? {
      EndTracks(s, step, t, own, k, grace);
    } else {
      EffectTracks(s, step, t, own, k, grace);
    }
  }

  // ---- every trace ----

  lemma {:induction false} OwnPrefix(me: Actor, steps: seq<Step>, n: nat)
    requires n <= |steps|
    ensures Own(me, steps[..n]) <= Own(me, steps)
  {
    if n == |steps| {
      assert steps[..n] == steps;
    } else {
      OwnPrefix(me, steps[..|steps| - 1], n);
      assert steps[..|steps| - 1][..n] == steps[..n];
    }
  }

  /** The actor's next step follows its steps so far. */
  lemma OwnNext(me: Actor, steps: seq<Step>, n: nat)
    requires n < |steps|
    ensures var own, so := Own(me, steps), Own(me, steps[..n]);
      && Own(me, steps[..n + 1]) == (if Mine(me, steps[n]) then so + [steps[n]] else so)
      && (Mine(me, steps[n]) ==> |so| < |own| && own[|so|] == steps[n] && own[..|so|] == so)
  {
    hide Mine;
    OwnPrefix(me, steps, n + 1);
    assert steps[..n + 1][..n] == steps[..n] && steps[..n + 1][n] == steps[n];
  }

  /** From the moment the object is overdue, it is kept track of. */
  lemma {:induction false} TraceTracks(grace: Time, states: seq<State>, steps: seq<Step>, m: nat, n: nat, k: Key)
    requires IsTrace(Collector, states, steps) && Inv(states[0]) && AllFit(grace, Own(Collector, steps))
    requires m <= n < |states| && Tracked(states[m], Own(Collector, steps[..m]), k, grace)
    requires NeverListed(states, k) && k != ""
    ensures Tracked(states[n], Own(Collector, steps[..n]), k, grace)
    ensures GoneBy(Own(Collector, steps[..n]), k) && !GoneBy(Own(Collector, steps[..m]), k) ==>
      exists j :: m <= j <= n && k !in states[j].bucket
    decreases n - m
  {
    hide Next, Inv, Mine, Thorough, Tracked, Own, GoneBy, Fits, Unlisted;
    if m < n {
      TraceTracks(grace, states, steps, m, n - 1, k);
      var so := Own(Collector, steps[..n - 1]);
      TraceKeepsInv(Collector, states, steps, n - 1);
      OwnNext(Collector, steps, n - 1);
      assert steps[..n - 1 + 1] == steps[..n];
      if Mine(Collector, steps[n - 1]) {
        assert Fits(grace, Own(Collector, steps)[..|so|], Own(Collector, steps)[|so|]);
        if GoneBy(so + [steps[n - 1]], k) { GoneIsErased(states[n - 1], steps[n - 1], states[n], so, k); }
      }
      StepTracks(states[n - 1], steps[n - 1], states[n], so, k, grace);
    }
  }

  lemma OverdueIsTracked(s: State, own: seq<Step>, k: Key, grace: Time)
    requires IsOverdue(s, k, grace) && s.sweep.NoSweep?
    requires forall i :: 0 <= i < |own| ==> own[i] == Mark || IsClosureStep(own[i])
    ensures Tracked(s, own, k, grace) && !GoneBy(own, k)
  {
  }

  /** The mark takes an unlisted object that no closure reaches. */
  lemma LostIsMarked(s: State, t: State, k: Key, grace: Time)
    requires Inv(s) && DoMark(s, t) && IsLost(s, k) && Unlisted(s, k) && grace <= 0
    ensures IsOverdue(t, k, grace)
  {
    assert !IsPending(s, k);
    assert k in Stale(s);
    assert s.rows[k].firstDeletedAt.None?;
    hide Kept;
  }

  // ---- a complete run ----

  /** k was asked for, and its delete was not done. */
  ghost predicate NotDone(w: World, from: nat, to: nat, own: seq<Step>, k: Key) {
    exists t :: from <= t < to && !w.remove(t, k).Done? && RemovalStep(w, t, k) in own
  }

  /** Every key the rechecks passed on was asked for. */
  ghost predicate AllAsked(w: World, from: nat, to: nat, own: seq<Step>) {
    forall k :: k in Rechecked(own) ==> GoneBy(own, k) || NotDone(w, from, to, own, k)
  }

  /** The own steps of a run without an error: a purge perhaps, the mark, and batches until one
      is empty. */
  ghost predicate Complete(w: World, from: nat, to: nat, grace: Time, own: seq<Step>) {
    && AllFit(grace, own) && AllAsked(w, from, to, own) && SweepLock({}) in own
    && exists m :: 0 <= m < |own| && own[m] == Mark && OnlyClosures(own[..m])
  }

  predicate OnlyClosures(own: seq<Step>) {
    forall i :: 0 <= i < |own| ==> IsClosureStep(own[i])
  }

  /** The object was looked at. At the end it has no row, and its bytes were gone at some
      moment; or its delete was not done. */
  ghost predicate Collected(w: World, from: nat, to: nat, states: seq<State>, own: seq<Step>, t: State, k: Key) {
    && k in Looked(own)
    && ((k !in t.rows && exists j :: 0 <= j < |states| && k !in states[j].bucket) || NotDone(w, from, to, own, k))
  }

  /** In one trace: overdue from the start; or, if no grace is given, live and never reached. */
  ghost predicate OughtToGo(states: seq<State>, k: Key, grace: Time) {
    && states != [] && NeverListed(states, k) && k != ""
    && (|| IsOverdue(states[0], k, grace)
        || (grace <= 0 && IsLost(states[0], k) && forall i :: 0 <= i < |states| ==> k !in Kept(states[i])))
  }

  /** Whatever happened between s and t, what ought to go was collected. */
  ghost predicate Collects(w: World, from: nat, to: nat, grace: Time, s: State, own: seq<Step>, t: State) {
    forall states, steps, k :: Leads(states, steps, s, own, t) && OughtToGo(states, k, grace) ==>
      Collected(w, from, to, states, own, t, k)
  }

  /** One way it may have gone, with these steps of the collector. */
  ghost predicate Leads(states: seq<State>, steps: seq<Step>, s: State, own: seq<Step>, t: State) {
    IsTrace(Collector, states, steps) && states[0] == s && states[|steps|] == t && Own(Collector, steps) == own
  }

  /** Where in the trace the actor took its i-th step. */
  lemma {:induction false} OwnAt(me: Actor, steps: seq<Step>, i: nat) returns (n: nat)
    requires i < |Own(me, steps)|
    ensures n < |steps| && Mine(me, steps[n]) && steps[n] == Own(me, steps)[i]
    ensures Own(me, steps[..n]) == Own(me, steps)[..i]
  {
    hide Mine;
    var init := steps[..|steps| - 1];
    if i < |Own(me, init)| {
      n := OwnAt(me, init, i);
      assert init[..n] == steps[..n];
    } else {
      n := |steps| - 1;
    }
  }

  /** As long as the collector only purges, an unlisted row stays as it is, and no sweep begins. */
  lemma {:induction false} PurgingLeavesRow(states: seq<State>, steps: seq<Step>, n: nat, k: Key)
    requires IsTrace(Collector, states, steps) && states[0].sweep.NoSweep? && n <= |steps|
    requires OnlyClosures(Own(Collector, steps[..n])) && NeverListed(states, k)
    ensures states[n].sweep.NoSweep?
    ensures k in states[n].rows <==> k in states[0].rows
    ensures k in states[0].rows ==> states[n].rows[k] == states[0].rows[k]
  {
    hide Next, Mine, Thorough, Unlisted;
    if n > 0 {
      OwnNext(Collector, steps, n - 1);
      assert steps[..n - 1 + 1] == steps[..n];
      var so := Own(Collector, steps[..n - 1]);
      assert so == Own(Collector, steps[..n])[..|so|];
      PurgingLeavesRow(states, steps, n - 1, k);
      if Mine(Collector, steps[n - 1]) {
        assert steps[n - 1] == Own(Collector, steps[..n])[|so|];
      }
      NotMineIsNoMark(steps[n - 1]);
      OtherStepsLeaveSweep(states[n - 1], steps[n - 1], states[n]);
      UnlistedRowStays(states[n - 1], steps[n - 1], states[n], k);
    }
  }

  lemma NotMineIsNoMark(step: Step)
    ensures !Mine(Collector, step) || IsClosureStep(step) ==> !step.Mark? && !step.SweepCommit?
  {
  }

  /** From some moment on, what ought to go is overdue. */
  lemma BecomesOverdue(grace: Time, states: seq<State>, steps: seq<Step>, m: nat, k: Key) returns (n: nat)
    requires IsTrace(Collector, states, steps) && Inv(states[0]) && states[0].sweep.NoSweep?
    requires OughtToGo(states, k, grace) && m < |Own(Collector, steps)|
    requires Own(Collector, steps)[m] == Mark && OnlyClosures(Own(Collector, steps)[..m])
    ensures n <= |steps| && Tracked(states[n], Own(Collector, steps[..n]), k, grace)
      && !GoneBy(Own(Collector, steps[..n]), k)
  {
    hide Next, Inv, Thorough, Tracked, GoneBy, IsOverdue, Unlisted, Kept;
    if IsOverdue(states[0], k, grace) {
      n := 0;
      OverdueIsTracked(states[0], [], k, grace);
    } else {
      var i := OwnAt(Collector, steps, m);
      n := i + 1;
      PurgingLeavesRow(states, steps, i, k);
      TraceKeepsInv(Collector, states, steps, i);
      OwnNext(Collector, steps, i);
      MarksLost(states[i], steps[i], states[n], k, grace);
      var so := Own(Collector, steps[..n]);
      forall j | 0 <= j < |so| ensures so[j] == Mark || IsClosureStep(so[j]) {
        if j < m { assert so[j] == Own(Collector, steps)[..m][j]; }
      }
      OverdueIsTracked(states[n], so, k, grace);
    }
  }

  lemma MarksLost(s: State, step: Step, t: State, k: Key, grace: Time)
    requires Next(s, step, t) && step == Mark && Inv(s) && IsLost(s, k) && Unlisted(s, k) && grace <= 0
    ensures IsOverdue(t, k, grace) && t.sweep == s.sweep
  {
    LostIsMarked(s, t, k, grace);
    MarkLeavesSweep(s, step, t);
  }

  /** Every trace of a complete run collects what ought to go. */
  lemma CompleteCollects(w: World, from: nat, to: nat, grace: Time, s: State, own: seq<Step>, t: State)
    requires Inv(s) && s.sweep.NoSweep? && t.sweep.NoSweep? && Complete(w, from, to, grace, own)
    ensures Collects(w, from, to, grace, s, own, t)
  {
    var m :| 0 <= m < |own| && own[m] == Mark && OnlyClosures(own[..m]);
    hide Inv, Next, Thorough, Mine, AllFit, OnlyClosures;
    forall states, steps, k | Leads(states, steps, s, own, t) && OughtToGo(states, k, grace)
      ensures Collected(w, from, to, states, own, t, k)
    {
      var n := BecomesOverdue(grace, states, steps, m, k);
      TraceTracks(grace, states, steps, n, |steps|, k);
      assert steps[..|steps|] == steps;
      assert Tracked(t, own, k, grace);
    }
  }

  // ---- the statements of a batch ----

  /** What was locked: every overdue key after afterKey that no push listed, unless it was
      revived before the lock, or the batch was full with keys before it. */
  ghost predicate LocksDue(s: State, grace: Time, afterKey: Key, at: State, locked: seq<Key>) {
    forall k :: IsOverdue(s, k, grace) && Unlisted(s, k) && Before(afterKey, k) ==>
      || k in locked || !IsTombstone(at.rows, k)
      || (|locked| == 1000 && Before(locked[|locked| - 1], k))
  }

  /** What is asked for: the keys whose row is there and that no push lists now. */
  ghost predicate AsksFor(s: State, looked: seq<Key>, asked: seq<Key>) {
    forall k :: k in asked <==> k in looked && k in s.rows && Unlisted(s, k)
  }

  /** Of these keys only such are missing as come after a full batch. */
  ghost predicate FillsUp(keys: set<Key>, locked: seq<Key>) {
    forall k :: k in keys && k !in locked ==> |locked| == DeletionBatchSize && Before(locked[|locked| - 1], k)
  }

  lemma FirstFillUp(sorted: seq<Key>, keys: set<Key>)
    requires Ascending(Self, sorted) && forall k :: k in sorted <==> k in keys
    ensures FillsUp(keys, UpTo(sorted, DeletionBatchSize))
  {
    var locked := UpTo(sorted, DeletionBatchSize);
    forall k | k in keys && k !in locked
      ensures |locked| == DeletionBatchSize && Before(locked[|locked| - 1], k)
    {
      var i :| 0 <= i < |sorted| && sorted[i] == k;
      assert forall j :: 0 <= j < |locked| ==> locked[j] in locked;
      assert Before(Self(sorted[|locked| - 1]), Self(sorted[i]));
    }
  }

  lemma LocksAreDue(s: State, grace: Time, afterKey: Key, at: State, locked: seq<Key>)
    requires at.sweep == Scanned(Candidates(s, grace, afterKey)) && FillsUp(Lockable(at), locked)
    ensures LocksDue(s, grace, afterKey, at, locked)
  {
    forall k |
      IsOverdue(s, k, grace) && Unlisted(s, k) && Before(afterKey, k) && k !in locked && IsTombstone(at.rows, k)
      ensures |locked| == DeletionBatchSize && Before(locked[|locked| - 1], k)
    {
      assert k in Candidates(s, grace, afterKey) && k in Lockable(at);
    }
  }

  lemma AsksForUnlisted(s: State, looked: seq<Key>, asked: seq<Key>)
    requires Elements(asked) == Unpending(s, Elements(looked))
    ensures AsksFor(s, looked, asked)
  {
    forall k ensures k in asked <==> k in looked && k in s.rows && Unlisted(s, k) {
      assert k in asked <==> k in Unpending(s, Elements(looked));
      if !Unlisted(s, k) { assert IsPending(s, k); }
    }
  }

  // ---- batch after batch ----

  /** The own steps so far: which keys they looked at, and that all of them are accounted for. */
  ghost predicate Accounts(w: World, from: nat, to: nat, grace: Time, own: seq<Step>, visited: seq<Key>, ok: bool) {
    && Looked(own) == Elements(visited) && AllAsked(w, from, to, own)
    && (ok ==> AllFit(grace, own))
  }

  /** A batch scans once, and rolls back without an error only if it has locked nothing. */
  predicate OneScan(grace: Time, after: Key, batch: seq<Step>) {
    && batch != [] && batch[0].SweepScan? && batch[0].grace == grace && batch[0].after == after
    && forall i :: 1 <= i < |batch| ==>
         !batch[i].SweepScan? && (batch[i].SweepAbort? ==> batch[i - 1] == SweepLock({}))
  }

  ghost predicate BatchAccounts(w: World, from: nat, to: nat, grace: Time, after: Key, batch: seq<Step>,
                                looked: seq<Key>, ok: bool) {
    && Looked(batch) == Elements(looked) && AllAsked(w, from, to, batch)
    && (ok ==> OneScan(grace, after, batch))
  }

  lemma LookedJoin(a: seq<Step>, b: seq<Step>)
    ensures Looked(a + b) == Looked(a) + Looked(b) && Rechecked(a + b) == Rechecked(a) + Rechecked(b)
    ensures forall k :: GoneBy(a + b, k) <==> GoneBy(a, k) || GoneBy(b, k)
  {
    var all := a + b;
    assert forall i :: 0 <= i < |a| ==> all[i] == a[i];
    assert forall i :: 0 <= i < |b| ==> all[|a| + i] == b[i];
    forall k ensures k in Looked(all) <==> k in Looked(a) || k in Looked(b) {
      if i :| 0 <= i < |b| && b[i].SweepLock? && k in b[i].keys { assert all[|a| + i] == b[i]; }
      if i :| 0 <= i < |a| && a[i].SweepLock? && k in a[i].keys { assert all[i] == a[i]; }
    }
    forall k ensures k in Rechecked(all) <==> k in Rechecked(a) || k in Rechecked(b) {
      if i :| 0 <= i < |b| && b[i].SweepRecheck? && k in b[i].doomed { assert all[|a| + i] == b[i]; }
      if i :| 0 <= i < |a| && a[i].SweepRecheck? && k in a[i].doomed { assert all[i] == a[i]; }
    }
  }

  lemma AskedJoin(w: World, from: nat, mid: nat, to: nat, a: seq<Step>, b: seq<Step>)
    requires from <= mid <= to && AllAsked(w, from, mid, a) && AllAsked(w, mid, to, b)
    ensures AllAsked(w, from, to, a + b)
  {
    LookedJoin(a, b);
    hide Looked, Rechecked, GoneBy;
    forall k | k in Rechecked(a + b) ensures GoneBy(a + b, k) || NotDone(w, from, to, a + b, k) {
      if k in Rechecked(a) && !GoneBy(a, k) {
        var t :| from <= t < mid && !w.remove(t, k).Done? && RemovalStep(w, t, k) in a;
        assert RemovalStep(w, t, k) in a + b;
      } else if k in Rechecked(b) && !GoneBy(b, k) {
        var t :| mid <= t < to && !w.remove(t, k).Done? && RemovalStep(w, t, k) in b;
        assert RemovalStep(w, t, k) in a + b;
      }
    }
  }

  lemma FitJoin(grace: Time, own: seq<Step>, after: Key, batch: seq<Step>)
    requires AllFit(grace, own) && OneScan(grace, after, batch) && (after == "" || after in Looked(own))
    ensures AllFit(grace, own + batch)
  {
    var all := own + batch;
    hide Looked;
    forall i | 0 <= i < |all| ensures Fits(grace, all[..i], all[i]) {
      if i < |own| {
        assert all[..i] == own[..i];
      } else if i == |own| {
        assert all[..i] == own;
      } else {
        assert all[..i][i - 1] == batch[i - 1 - |own|];
      }
    }
  }

  lemma AccountsMore(w: World, from: nat, mid: nat, to: nat, grace: Time, own: seq<Step>, visited: seq<Key>, ok: bool,
                     after: Key, batch: seq<Step>, looked: seq<Key>, good: bool)
    requires from <= mid <= to && Accounts(w, from, mid, grace, own, visited, ok)
    requires BatchAccounts(w, mid, to, grace, after, batch, looked, good) && (after == "" || after in visited)
    ensures Accounts(w, from, to, grace, own + batch, visited + looked, ok && good)
  {
    hide AllAsked, AllFit, OneScan;
    LookedJoin(own, batch);
    hide Looked, Rechecked, GoneBy;
    AskedJoin(w, from, mid, to, own, batch);
    assert Elements(visited + looked) == Elements(visited) + Elements(looked);
    if ok && good {
      assert after in visited ==> after in Elements(visited);
      FitJoin(grace, own, after, batch);
    }
  }

  lemma AccountsBegin(w: World, t: nat, grace: Time)
    ensures Accounts(w, t, t, grace, [Mark], [], true)
  {
  }

  lemma AccountsLater(w: World, from: nat, mid: nat, to: nat, grace: Time, own: seq<Step>, visited: seq<Key>, ok: bool)
    requires from <= mid <= to && Accounts(w, mid, to, grace, own, visited, ok)
    ensures Accounts(w, from, to, grace, own, visited, ok)
  {
    hide AllFit, Looked, Rechecked, GoneBy;
    forall k | k in Rechecked(own) && !GoneBy(own, k) ensures NotDone(w, from, to, own, k) {
      var t :| mid <= t < to && !w.remove(t, k).Done? && RemovalStep(w, t, k) in own;
    }
  }

  lemma NoBatch(w: World, from: nat, to: nat, grace: Time, after: Key)
    ensures BatchAccounts(w, from, to, grace, after, [], [], false)
  {
  }

  /** Each key the recheck passed on is asked for in the deletes that follow. */
  lemma DeletionAsks(w: World, from: nat, t: nat, to: nat, asked: seq<Key>, stats: seq<Step>, ok: bool)
    requires StatsFor(w, t, asked, stats) && from <= t && t + |asked| <= to
    ensures var own := Deletion(w, t, asked, stats, ok);
      && Looked(own) == {} && AllAsked(w, from, to, own)
      && forall i :: 0 <= i < |own| ==>
           !own[i].SweepScan? && !own[i].SweepLock? && (own[i].SweepAbort? ==> !ok && i == |own| - 1)
  {
    hide UnansweredKeys;
    var own := Deletion(w, t, asked, stats, ok);
    var removals := Removals(w, t, asked);
    forall i | 0 <= i < |own|
      ensures !own[i].SweepScan? && !own[i].SweepLock? && (own[i].SweepAbort? ==> !ok && i == |own| - 1)
      ensures own[i].SweepRecheck? ==> own[i].doomed == Elements(asked)
    {
      if 1 <= i < 1 + |asked| {
        assert own[i] == RemovalStep(w, t + i - 1, asked[i - 1]);
      } else if 1 + |asked| <= i < |own| - 1 {
        assert own[i] == stats[i - 1 - |asked|];
      }
    }
    forall k | k in Rechecked(own) ensures GoneBy(own, k) || NotDone(w, from, to, own, k) {
      assert k in asked;
      var i :| 0 <= i < |asked| && asked[i] == k;
      assert own[1 + i] == RemovalStep(w, t + i, k);
    }
  }

  /** A whole batch: the locking and what follows. */
  lemma BatchCounts(w: World, from: nat, t: nat, to: nat, grace: Time, after: Key, cands: set<Key>, looked: seq<Key>,
                    rest: seq<Step>, asked: seq<Key>, stats: seq<Step>, ok: bool, aborted: bool)
    requires from <= t && t + |asked| <= to
    requires if aborted then rest == [SweepAbort] && (ok ==> looked == [])
             else rest == Deletion(w, t, asked, stats, ok) && StatsFor(w, t, asked, stats)
    ensures var head := [SweepScan(grace, after, cands), SweepLock(Elements(looked))];
      BatchAccounts(w, from, to, grace, after, head + rest, looked, ok)
  {
    var head := [SweepScan(grace, after, cands), SweepLock(Elements(looked))];
    hide Deletion, StatsFor;
    if aborted {
      assert Looked(rest) == {} && Rechecked(rest) == {};
      assert Elements<Key>([]) == {};
    } else {
      DeletionAsks(w, from, t, to, asked, stats, ok);
    }
    LookedJoin(head, rest);
    HeadLooks(grace, after, cands, Elements(looked));
    AskedJoin(w, from, from, to, head, rest);
    hide Looked, Rechecked, GoneBy, AllAsked;
    if ok {
      var all := head + rest;
      forall i | 1 <= i < |all|
        ensures !all[i].SweepScan? && (all[i].SweepAbort? ==> all[i - 1] == SweepLock({}))
      {
        if i >= 2 { assert all[i] == rest[i - 2]; }
      }
    }
  }

  lemma HeadLooks(grace: Time, after: Key, cands: set<Key>, keys: set<Key>)
    ensures var head := [SweepScan(grace, after, cands), SweepLock(keys)];
      Looked(head) == keys && Rechecked(head) == {} && forall w, from, to :: AllAsked(w, from, to, head)
  {
    var head := [SweepScan(grace, after, cands), SweepLock(keys)];
    assert head[1].keys == keys;
  }

  lemma IsComplete(w: World, from: nat, to: nat, grace: Time, own: seq<Step>, visited: seq<Key>)
    requires Accounts(w, from, to, grace, own, visited, true) && SweptAll(grace, own)
    ensures Complete(w, from, to, grace, own)
  {
    hide AllFit, AllAsked, Looked;
    assert own[0] == Mark && OnlyClosures(own[..0]);
    assert own[|own| - 2] == SweepLock({});
  }

  lemma NothingLooked()
    ensures Looked([]) == Elements([])
  {
  }

  lemma AccountsLess(w: World, from: nat, to: nat, grace: Time, own: seq<Step>, visited: seq<Key>, ok: bool, less: bool)
    requires Accounts(w, from, to, grace, own, visited, ok) && (less ==> ok)
    ensures Accounts(w, from, to, grace, own, visited, less)
  {
  }

  /** What a sweep that went through has collected. */
  lemma SweepIsComplete(w: World, grace: Time, from: nat, mid: nat, to: nat, s: State, own: seq<Step>, t: State,
                        visited: seq<Key>, ok: bool)
    requires from <= mid <= to && Accounts(w, mid, to, grace, own, visited, ok) && (ok ==> SweptAll(grace, own))
    requires Inv(s) && s.sweep.NoSweep? && t.sweep.NoSweep?
    ensures Looked(own) == Elements(visited)
    ensures ok ==> Complete(w, from, to, grace, own) && Collects(w, from, to, grace, s, own, t)
  {
    hide Inv, SweptAll, Complete, Collects, AllFit, AllAsked;
    AccountsLater(w, from, mid, to, grace, own, visited, ok);
    if ok {
      IsComplete(w, from, to, grace, own, visited);
      CompleteCollects(w, from, to, grace, s, own, t);
    }
  }

  lemma CompleteLater(w: World, from: nat, mid: nat, to: nat, grace: Time, own: seq<Step>)
    requires from <= mid <= to && Complete(w, mid, to, grace, own)
    ensures Complete(w, from, to, grace, own)
  {
    hide AllFit, OnlyClosures;
    AskedJoin(w, from, mid, to, [], own);
    assert [] + own == own;
  }

  /** A purge may come first. */
  lemma CompleteAfterPurge(w: World, from: nat, mid: nat, to: nat, grace: Time, purge: seq<Step>, own: seq<Step>,
                           cutoff: Time)
    requires IsPurge(purge, cutoff) && from <= mid <= to && Complete(w, mid, to, grace, own)
    ensures Complete(w, from, to, grace, purge + own)
  {
    assert OnlyClosures(purge) && AllAsked(w, from, mid, purge);
    hide AllFit, AllAsked, IsPurge;
    AskedJoin(w, from, mid, to, purge, own);
    FitAfterPurge(grace, purge, own);
    var all := purge + own;
    var m :| 0 <= m < |own| && own[m] == Mark && OnlyClosures(own[..m]);
    assert all[|purge| + m] == Mark && all[..|purge| + m] == purge + own[..m];
  }

  lemma FitAfterPurge(grace: Time, purge: seq<Step>, own: seq<Step>)
    requires OnlyClosures(purge) && AllFit(grace, own)
    ensures AllFit(grace, purge + own)
  {
    var all := purge + own;
    forall i | 0 <= i < |all| ensures Fits(grace, all[..i], all[i]) {
      if i < |purge| {
        assert IsClosureStep(all[i]);
      } else {
        var j := i - |purge|;
        assert all[..i] == purge + own[..j];
        FitsAfterMore(grace, purge, own[..j], own[j]);
      }
    }
  }

  lemma FitsAfterMore(grace: Time, before: seq<Step>, own: seq<Step>, step: Step)
    requires Fits(grace, own, step)
    ensures Fits(grace, before + own, step)
  {
    LookedJoin(before, own);
    hide Looked;
  }

  // ---- closures ----

  /** In one trace: a closure that is old as long as it is there, and that no pin and no pin
      request ever names. */
  ghost predicate IsAbandoned(states: seq<State>, k: Key, cutoff: Time) {
    states != [] && k in states[0].closures && forall i :: 0 <= i < |states| ==> IsAlone(states[i], k, cutoff)
  }

  predicate IsAlone(s: State, k: Key, cutoff: Time) {
    && (k in s.closures ==> s.closures[k] < cutoff)
    && (forall n :: n in s.pins ==> s.pins[n] != k)
    && forall c :: c in s.pinTxs ==> s.pinTxs[c].key != k
  }

  /** Whatever happened between s and t, the abandoned closures were purged. */
  ghost predicate PurgesAll(cutoff: Time, s: State, own: seq<Step>, t: State) {
    forall states, steps, k :: Leads(states, steps, s, own, t) && IsAbandoned(states, k, cutoff) ==> k !in t.closures
  }

  /** How far the purge has come with an abandoned closure. */
  predicate Condemned(s: State, own: seq<Step>, k: Key, cutoff: Time) {
    if |own| == 0 then k in s.closures
    else if |own| == 1 then k in s.closures && s.purge.PurgeScanned? && k in s.purge.cands && cutoff <= s.purge.cutoff
    else if |own| == 2 then s.purge.PurgeLocked? && k in s.purge.keys
    else if |own| == 3 then s.purge.PurgeDeleting? && k in s.purge.dead
    else k !in s.closures
  }

  predicate IsPurgeStep(step: Step) {
    step.PurgeScan? || step.PurgeLock? || step.PurgeDelete? || step.PurgeCommit? || step.PurgeAbort?
  }

  /** Only the purge takes closures away, and a new closure is of the moment. */
  lemma ClosuresStay(s: State, step: Step, t: State, k: Key)
    requires Next(s, step, t)
    ensures !step.PurgeCommit? && k in s.closures ==> k in t.closures
    ensures k in t.closures && k !in s.closures ==> s.now <= t.closures[k]
    ensures !IsPurgeStep(step) ==> t.purge == s.purge
  {
    if IsPushStep(step) && !WritesRows(step) {
      QuietPushStep(s, step, t);
    } else if WritesRows(step) {
      WritingPushStep(s, step, t);
      CommitsAddClosures(s, step, t, k);
    } else {
      RestLeavesClosures(s, step, t, k);
    }
    hide Next;
  }

  lemma CommitsAddClosures(s: State, step: Step, t: State, k: Key)
    requires Next(s, step, t) && WritesRows(step)
    ensures k in s.closures ==> k in t.closures
    ensures k in t.closures && k !in s.closures ==> s.now <= t.closures[k]
  {
    hide Missing, CommitUnblocked, MayComplete, Merge, Orphaned, Old;
  }

  lemma RestLeavesClosures(s: State, step: Step, t: State, k: Key)
    requires Next(s, step, t) && !IsPushStep(step)
    ensures !step.PurgeCommit? && k in s.closures ==> k in t.closures
    ensures k in t.closures ==> k in s.closures
    ensures !IsPurgeStep(step) ==> t.purge == s.purge
  {
    hide Kept, Ripe, Unpending;
  }

  lemma PurgeStepCondemns(s: State, step: Step, t: State, own: seq<Step>, k: Key, cutoff: Time)
    requires Next(s, step, t) && Condemned(s, own, k, cutoff) && IsAlone(s, k, cutoff) && IsAlone(t, k, cutoff)
    requires |own| < 4 && IsPurgeAt(|own|, step, cutoff) && Thorough(s, step)
    ensures Condemned(t, own + [step], k, cutoff)
  {
  }

  /** The i-th step of a purge. */
  predicate IsPurgeAt(i: nat, step: Step, cutoff: Time) {
    if i == 0 then step.PurgeScan? && cutoff <= step.cutoff
    else if i == 1 then step.PurgeLock?
    else if i == 2 then step.PurgeDelete?
    else step.PurgeCommit?
  }

  lemma StepCondemns(s: State, step: Step, t: State, own: seq<Step>, k: Key, cutoff: Time)
    requires Next(s, step, t) && Condemned(s, own, k, cutoff) && IsAlone(s, k, cutoff) && IsAlone(t, k, cutoff)
    requires cutoff <= s.now
    requires Mine(Collector, step) ==> Thorough(s, step) && (|own| < 4 ==> IsPurgeAt(|own|, step, cutoff))
    ensures Condemned(t, if Mine(Collector, step) then own + [step] else own, k, cutoff)
  {
    hide Next, IsAlone, Thorough;
    ClosuresStay(s, step, t, k);
    if Mine(Collector, step) && |own| < 4 {
      PurgeStepCondemns(s, step, t, own, k, cutoff);
    } else if k in t.closures && k !in s.closures {
      OldIsNotNew(t, k, cutoff);
    }
  }

  lemma OldIsNotNew(t: State, k: Key, cutoff: Time)
    requires IsAlone(t, k, cutoff) && k in t.closures
    ensures t.closures[k] < cutoff
  {
  }

  lemma NoneOwn(s: State, steps: seq<Step>, k: Key, cutoff: Time)
    requires steps == [] && k in s.closures
    ensures Condemned(s, Own(Collector, steps), k, cutoff)
  {
  }

  lemma {:induction false} TraceCondemns(cutoff: Time, states: seq<State>, steps: seq<Step>, n: nat, k: Key)
    requires IsTrace(Collector, states, steps) && IsAbandoned(states, k, cutoff) && n < |states|
    requires cutoff <= states[0].now
    requires forall i :: 0 <= i < 4 && i < |Own(Collector, steps)| ==> IsPurgeAt(i, Own(Collector, steps)[i], cutoff)
    ensures Condemned(states[n], Own(Collector, steps[..n]), k, cutoff)
  {
    hide Next, Mine, Thorough, Condemned, Own, IsAlone, IsPurgeAt;
    if n == 0 {
      NoneOwn(states[0], steps[..0], k, cutoff);
    } else {
      TraceCondemns(cutoff, states, steps, n - 1, k);
      TraceTakesTime(Collector, states, steps, n - 1);
      OwnNext(Collector, steps, n - 1);
      assert steps[..n - 1 + 1] == steps[..n];
      StepCondemns(states[n - 1], steps[n - 1], states[n], Own(Collector, steps[..n - 1]), k, cutoff);
    }
  }

  lemma PurgeTakesAll(cutoff: Time, s: State, own: seq<Step>, t: State)
    requires |own| >= 4 && own[0].PurgeScan? && IsPurge(own[..4], own[0].cutoff)
    requires cutoff <= own[0].cutoff && cutoff <= s.now
    ensures PurgesAll(cutoff, s, own, t)
  {
    hide Next, Mine, Thorough, IsAlone, Own;
    forall i | 0 <= i < 4 ensures IsPurgeAt(i, own[i], cutoff) { assert own[i] == own[..4][i]; }
    hide IsPurgeAt, IsPurge;
    forall states, steps, k | Leads(states, steps, s, own, t) && IsAbandoned(states, k, cutoff)
      ensures k !in t.closures
    {
      TraceCondemns(cutoff, states, steps, |steps|, k);
      assert steps[..|steps|] == steps;
    }
  }

  lemma PurgeIsDone(cutoff: Time, s: State, own: seq<Step>, t: State)
    requires IsPurge(own, cutoff)
    ensures cutoff <= s.now ==> PurgesAll(cutoff, s, own, t)
  {
    assert own[..4] == own;
    hide PurgesAll;
    if cutoff <= s.now { PurgeTakesAll(cutoff, s, own, t); }
  }

  lemma RunPurges(grace: Time, age: nat, s: State, own: seq<Step>, t: State)
    requires FullRun(grace, own) && CutoffsIn(own, s.now - age, t.now - age)
    ensures PurgesAll(s.now - age, s, own, t)
  {
    hide PurgesAll, IsPurge, SweptAll;
    PurgeTakesAll(s.now - age, s, own, t);
  }
}
