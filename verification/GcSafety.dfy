/** What every interleaving of pushes, pins and garbage collection keeps. */
module GcSafety {
  import opened Wrappers
  import opened Reachability
  import opened GcState
  import opened GcSteps

  // ---- the inductive invariant ----

  /** The lookup reads first_deleted_at and everything else deleted_at: they agree. */
  ghost predicate StampsAgree(s: State) {
    forall k :: k in s.rows ==> (s.rows[k].deletedAt.Some? <==> s.rows[k].firstDeletedAt.Some?)
  }

  /** A live row has its bytes. */
  ghost predicate LiveBacked(s: State) {
    forall k :: k in s.rows && s.rows[k].deletedAt.None? ==> k in s.bucket
  }

  /** A checked push whose rows still exist: what it was not offered is live, what it
      uploaded is in the bucket. */
  ghost predicate PushesBacked(s: State) {
    && s.pending.Keys <= s.sessions.Keys
    && (forall id :: id in s.pending && s.sessions[id].Checked? ==> s.sessions[id].offered <= s.pending[id].objs.Keys)
    && forall id, k :: Relied(s, id, k) ==>
         && (k !in s.sessions[id].offered ==> Live(s.rows, k))
         && (k in s.sessions[id].uploaded ==> k in s.bucket)
  }

  /** The sweep holds tombstones only, and dooms nothing a checked push relies on. */
  ghost predicate SweepSafe(s: State) {
    && (forall k :: k in LockedRows(s) ==> k in s.rows && s.rows[k].deletedAt.Some?)
    && (s.sweep.Deleting? ==>
          && s.sweep.doomed <= s.sweep.keys && s.sweep.gone <= s.sweep.doomed
          && forall id, k :: Relied(s, id, k) ==> k !in s.sweep.doomed)
  }

  /** What a published root was promised is there, and its row still refers to it. */
  ghost predicate Delivered(s: State, g: Grant, k: Key) {
    && Live(s.rows, k) && k in s.bucket
    && k in g.objs && g.objs[k] <= s.rows[k].refs
  }

  ghost predicate GrantHolds(s: State, g: Grant) {
    && g.root in s.closures
    && forall k :: k in Promised(g) ==> Delivered(s, g, k)
  }

  ghost predicate GrantsHold(s: State) {
    forall g :: g in s.grants ==> GrantHolds(s, g)
  }

  /** Pins and their requests name existing closures; the purge spares them. */
  ghost predicate PinsSafe(s: State) {
    && (forall n :: n in s.pins ==> s.pins[n] in s.closures)
    && (forall c :: c in s.pinTxs ==> s.pinTxs[c].key in s.closures && s.pinTxs[c].key !in LockedClosures(s))
    && LockedClosures(s) <= s.closures.Keys
    && (s.purge.PurgeDeleting? ==>
          && s.purge.dead <= s.purge.keys
          && forall n :: n in s.pins ==> s.pins[n] !in s.purge.dead)
  }

  ghost predicate Inv(s: State) {
    StampsAgree(s) && LiveBacked(s) && PushesBacked(s) && SweepSafe(s) && GrantsHold(s) && PinsSafe(s)
  }

  // ---- steps ----

  /** Promised objects are among those MarkStaleObjects reaches. */
  lemma PromisedIsKept(s: State, g: Grant)
    requires GrantHolds(s, g)
    ensures Promised(g) <= Kept(s)
  {
    var graph := RowRefs(s.rows);
    var kept := Kept(s);
    ReachIsClosed(graph, s.closures.Keys * s.rows.Keys);
    ReachIsClosed(g.objs, {g.root});
    var walk := set k | k in Reach(g.objs, {g.root}) && (k in g.objs ==> k in kept);
    assert g.root in walk by {
      if g.root in g.objs { assert g.root in Promised(g); }
    }
    forall k, r | k in walk && r in Refs(g.objs, k) ensures r in walk {
      assert k in Promised(g);
      assert r in Refs(graph, k);
    }
    ReachIsLeast(g.objs, {g.root}, walk);
  }

  /** Nothing that only adds rows, refs, bytes and closures, or revives tombstones, breaks a promise. */
  ghost predicate Grows(s: State, t: State) {
    && s.bucket <= t.bucket && s.closures.Keys <= t.closures.Keys
    && forall k :: Live(s.rows, k) ==> Live(t.rows, k) && s.rows[k].refs <= t.rows[k].refs
  }

  lemma GrowthKeepsPromises(s: State, t: State)
    requires GrantsHold(s) && Grows(s, t)
    ensures forall g :: g in s.grants ==> GrantHolds(t, g)
  {
    forall g | g in s.grants ensures GrantHolds(t, g) {
      assert GrantHolds(s, g);
      forall k | k in Promised(g) ensures Delivered(t, g, k) {
        assert Delivered(s, g, k);
      }
    }
  }

  predicate IsPushStep(step: Step) {
    || step.Insert? || step.Lookup? || step.LateLookup? || step.DropPending? || step.Put? || step.LatePut?
      || step.Adopt?
    || step.Register? || step.CommitClosure? || step.CommitPush? || step.Expire?
  }

  predicate IsClosureStep(step: Step) {
    || step.Tick? || step.Touch? || step.PinLock? || step.PinCommit? || step.PinAbort? || step.Unpin?
    || step.PurgeScan? || step.PurgeLock? || step.PurgeDelete? || step.PurgeCommit? || step.PurgeAbort?
  }

  /** The steps of pushes that write rows of objects. */
  predicate WritesRows(step: Step) {
    step.Register? || step.CommitClosure? || step.CommitPush? || step.Expire?
  }

  lemma QuietPushStep(s: State, step: Step, t: State)
    requires Next(s, step, t) && IsPushStep(step) && !WritesRows(step)
    ensures t.rows == s.rows && t.closures == s.closures && t.sweep == s.sweep && t.purge == s.purge
    ensures t.now == s.now && t.log == s.log && s.bucket <= t.bucket
    ensures !step.Put? && !step.LatePut? ==> t.bucket == s.bucket
  {
  }

  lemma WritingPushStep(s: State, step: Step, t: State)
    requires Next(s, step, t) && WritesRows(step)
    ensures t.sweep == s.sweep && t.purge == s.purge && t.now == s.now && t.log == s.log && t.bucket == s.bucket
  {
  }

  lemma ClosureStepLeaves(s: State, step: Step, t: State)
    requires Next(s, step, t) && IsClosureStep(step)
    ensures t.rows == s.rows && t.bucket == s.bucket && t.sweep == s.sweep && s.now <= t.now
    ensures !step.PurgeCommit? ==> t.log == s.log
  {
  }

  /** Only a step of a push, or its expiry, changes pending rows and sessions. */
  lemma OtherStepsLeavePushes(s: State, step: Step, t: State)
    requires Next(s, step, t) && !IsPushStep(step)
    ensures t.pending == s.pending && t.sessions == s.sessions && s.now <= t.now
  {
  }

  /** A step that leaves rows, closures and pins alone and removes nothing from the bucket. */
  lemma QuietKeeps(s: State, t: State)
    requires Inv(s) && t.rows == s.rows && s.bucket <= t.bucket && t.closures == s.closures && t.grants == s.grants
    requires t.pins == s.pins && t.pinTxs == s.pinTxs && t.purge == s.purge
    ensures StampsAgree(t) && LiveBacked(t) && GrantsHold(t) && PinsSafe(t)
  {
    GrowthKeepsPromises(s, t);
  }

  lemma LookupKeeps(s: State, id: Id, verify: bool, t: State)
    requires Inv(s) && DoLookup(s, id, verify, t)
    ensures Inv(t)
  {
    QuietKeeps(s, t);
    hide StampsAgree, GrantsHold, PinsSafe;
    forall i, k | Relied(t, i, k)
      ensures k !in t.sessions[i].offered ==> Live(t.rows, k)
      ensures k in t.sessions[i].uploaded ==> k in t.bucket
      ensures t.sweep.Deleting? ==> k !in t.sweep.doomed
    {
      if i != id { assert Relied(s, i, k); }
    }
  }

  lemma UploadKeeps(s: State, id: Id, k: Key, t: State)
    requires Inv(s) && (DoPut(s, id, k, t) || DoLatePut(s, id, k, t) || DoAdopt(s, id, k, t))
    ensures Inv(t)
  {
    QuietKeeps(s, t);
    hide StampsAgree, LiveBacked, GrantsHold, PinsSafe;
    forall i, o | Relied(t, i, o) ensures Relied(s, i, o) {}
  }

  lemma RegisterKeeps(s: State, k: Key, refs: set<Key>, t: State)
    requires Inv(s) && DoRegister(s, k, refs, t)
    ensures Inv(t)
  {
    hide GrantHolds, Kept, Missing;
    forall i, o | Relied(t, i, o)
      ensures o !in t.sessions[i].offered ==> Live(t.rows, o)
      ensures o in t.sessions[i].uploaded ==> o in t.bucket
      ensures t.sweep.Deleting? ==> o !in t.sweep.doomed
    {
      assert Relied(s, i, o);
    }
    GrowthKeepsPromises(s, t);
  }

  /** Inserted, or not told what is present, a push relies on nothing. */
  lemma InsertKeeps(s: State, id: Id, p: Pending, t: State)
    requires Inv(s) && DoInsert(s, id, p, t)
    ensures Inv(t)
  {
    QuietKeeps(s, t);
    hide StampsAgree, LiveBacked, GrantsHold, PinsSafe;
    forall i, k | Relied(t, i, k) ensures i != id && Relied(s, i, k) {}
  }

  lemma LateLookupKeeps(s: State, id: Id, offered: set<Key>, t: State)
    requires Inv(s) && DoLateLookup(s, id, offered, t)
    ensures Inv(t)
  {
    QuietKeeps(s, t);
    hide StampsAgree, LiveBacked, GrantsHold, PinsSafe;
    forall i, k | Relied(t, i, k) ensures i != id && Relied(s, i, k) {}
  }

  lemma DropPendingKeeps(s: State, id: Id, t: State)
    requires Inv(s) && DoDropPending(s, id, t)
    ensures Inv(t)
  {
    QuietKeeps(s, t);
    hide StampsAgree, LiveBacked, GrantsHold, PinsSafe;
    forall i, k | Relied(t, i, k) ensures Relied(s, i, k) {}
  }

  /** A push that may complete has every listed object in the bucket. */
  lemma CompleteIsUploaded(s: State, id: Id)
    requires Inv(s) && MayComplete(s, id)
    ensures s.pending[id].objs.Keys <= s.bucket
  {
    forall k | k in s.pending[id].objs ensures k in s.bucket {
      assert Relied(s, id, k);
    }
  }

  lemma PublishKeeps(s: State, id: Id, roots: set<Key>)
    requires Inv(s) && id in s.pending && CommitUnblocked(s, id, roots)
    requires s.pending[id].objs.Keys <= s.bucket
    ensures Inv(Publish(s, id, roots))
  {
    var t := Publish(s, id, roots);
    var objs := s.pending[id].objs;
    assert Grows(s, t);
    GrowthKeepsPromises(s, t);
    forall g | g in t.grants ensures GrantHolds(t, g) {
      if g !in s.grants {
        assert g.objs == objs && g.root in roots;
      }
    }
    forall i, k | Relied(t, i, k)
      ensures k !in t.sessions[i].offered ==> Live(t.rows, k)
      ensures k in t.sessions[i].uploaded ==> k in t.bucket
      ensures t.sweep.Deleting? ==> k !in t.sweep.doomed
    {
      assert Relied(s, i, k);
    }
  }

  lemma ExpireKeeps(s: State, cutoff: Time, keep: set<Id>, source: map<Key, Id>, t: State)
    requires Inv(s) && DoExpire(s, cutoff, keep, source, t)
    ensures Inv(t)
  {
    ExpireKeepsRows(s, cutoff, keep, source, t);
    hide StampsAgree, LiveBacked, GrantsHold, PinsSafe;
    forall i, k | Relied(t, i, k) ensures Relied(s, i, k) {}
  }

  lemma ExpireKeepsRows(s: State, cutoff: Time, keep: set<Id>, source: map<Key, Id>, t: State)
    requires Inv(s) && DoExpire(s, cutoff, keep, source, t)
    ensures StampsAgree(t) && LiveBacked(t) && GrantsHold(t) && PinsSafe(t)
  {
    hide GrantHolds, PushesBacked, SweepSafe;
    GrowthKeepsPromises(s, t);
  }

  lemma TouchKeeps(s: State, keys: set<Key>, t: State)
    requires Inv(s) && DoTouch(s, keys, t)
    ensures Inv(t)
  {
    assert t.closures.Keys == s.closures.Keys;
    SameRowsKeep(s, t);
  }

  /** A step that leaves rows, pushes, bytes and the sweep alone and loses no closure. */
  lemma SameRowsKeep(s: State, t: State)
    requires Inv(s)
    requires t.rows == s.rows && t.pending == s.pending && t.sessions == s.sessions
    requires t.bucket == s.bucket && t.sweep == s.sweep && t.grants == s.grants
    requires s.closures.Keys <= t.closures.Keys
    ensures StampsAgree(t) && LiveBacked(t) && PushesBacked(t) && SweepSafe(t) && GrantsHold(t)
  {
    forall i, k | Relied(t, i, k) ensures Relied(s, i, k) {}
    GrowthKeepsPromises(s, t);
  }

  lemma PinStepKeeps(s: State, step: Step, t: State)
    requires Inv(s) && Next(s, step, t)
    requires step.PinLock? || step.PinCommit? || step.PinAbort? || step.Unpin?
    ensures Inv(t)
  {
    SameRowsKeep(s, t);
    if step.PinCommit? {
      // The request shares the row, so the purge neither holds nor deletes it.
      assert s.pinTxs[step.conn].key !in LockedClosures(s);
    }
  }

  lemma PurgeStepKeeps(s: State, step: Step, t: State)
    requires Inv(s) && Next(s, step, t)
    requires step.PurgeScan? || step.PurgeLock? || step.PurgeDelete? || step.PurgeAbort?
    ensures Inv(t)
  {
    SameRowsKeep(s, t);
    if step.PurgeLock? {
      forall c | c in t.pinTxs ensures t.pinTxs[c].key !in LockedClosures(t) {
        if s.pinTxs[c].key in step.keys { assert IsShared(s, s.pinTxs[c].key); }
      }
    }
    if step.PurgeDelete? {
      forall n | n in t.pins ensures t.pins[n] !in t.purge.dead {
        assert IsPinned(s, s.pins[n]);
      }
    }
  }

  lemma PurgeCommitKeeps(s: State, t: State)
    requires Inv(s) && DoPurgeCommit(s, t)
    ensures Inv(t)
  {
    forall g | g in t.grants ensures GrantHolds(t, g) {
      assert GrantHolds(s, g);
      forall k | k in Promised(g) ensures Delivered(t, g, k) { assert Delivered(s, g, k); }
    }
    forall i, k | Relied(t, i, k) ensures Relied(s, i, k) {}
  }

  lemma MarkKeeps(s: State, t: State)
    requires Inv(s) && DoMark(s, t)
    ensures Inv(t)
  {
    forall i, k | Relied(t, i, k)
      ensures k !in t.sessions[i].offered ==> Live(t.rows, k)
      ensures k in t.sessions[i].uploaded ==> k in t.bucket
      ensures t.sweep.Deleting? ==> k !in t.sweep.doomed
    {
      assert Relied(s, i, k);
      assert IsPending(s, k);
    }
    forall g | g in t.grants ensures GrantHolds(t, g) {
      assert GrantHolds(s, g);
      PromisedIsKept(s, g);
      forall k | k in Promised(g) ensures Delivered(t, g, k) { assert Delivered(s, g, k); }
    }
  }

  /** Selecting, locking, aborting: the sweep changes, and dooms nothing yet. */
  lemma SweepStepKeeps(s: State, t: State)
    requires Inv(s) && t == s.(sweep := t.sweep) && !t.sweep.Deleting?
    requires forall k :: k in LockedRows(t) ==> k in s.rows && s.rows[k].deletedAt.Some?
    ensures Inv(t)
  {
    QuietKeeps(s, t);
    hide StampsAgree, LiveBacked, GrantsHold, PinsSafe;
    forall i, k | Relied(t, i, k) ensures Relied(s, i, k) {}
  }

  lemma RecheckKeeps(s: State, doomed: set<Key>, t: State)
    requires Inv(s) && DoSweepRecheck(s, doomed, t)
    ensures Inv(t)
  {
    QuietKeeps(s, t);
    hide StampsAgree, LiveBacked, GrantsHold, PinsSafe;
    forall i, k | Relied(t, i, k) ensures Relied(s, i, k) && k !in t.sweep.doomed {
      assert Relied(s, i, k);
      assert IsPending(s, k);
    }
  }

  /** At most k leaves the bucket and joins the removed keys of the sweep. */
  ghost predicate Leaves(s: State, k: Key, t: State) {
    && s.sweep.Deleting? && k in s.sweep.doomed
    && s.bucket - {k} <= t.bucket && t.sweep.Deleting? && t.sweep.gone <= s.sweep.gone + {k}
    && t.sweep.keys == s.sweep.keys && t.sweep.doomed == s.sweep.doomed
    && t.rows == s.rows && t.pending == s.pending && t.sessions == s.sessions && t.grants == s.grants
    && t.closures == s.closures && t.pins == s.pins && t.pinTxs == s.pinTxs && t.purge == s.purge
  }

  lemma LeavingKeeps(s: State, k: Key, t: State)
    requires Inv(s) && Leaves(s, k, t)
    ensures Inv(t)
  {
    hide Promised;
    forall g | g in t.grants ensures GrantHolds(t, g) {
      assert GrantHolds(s, g);
      forall o | o in Promised(g) ensures Delivered(t, g, o) { assert Delivered(s, g, o); }
    }
    forall i, o | Relied(t, i, o) ensures Relied(s, i, o) {}
  }

  /** A key of the delete set leaves the bucket, or is found missing: no promise names it and
      no push relies on it. */
  lemma SweepEffectKeeps(s: State, k: Key, t: State)
    requires Inv(s)
    requires DoSweepRemoved(s, k, t) || (exists b :: DoSweepFailed(s, k, b, t)) || exists b :: DoSweepStat(s, k, b, t)
    ensures Inv(t)
  {
    hide Inv;
    assert Leaves(s, k, t) by {
      if b :| DoSweepStat(s, k, b, t) {
      } else if b :| DoSweepFailed(s, k, b, t) {
      }
    }
    LeavingKeeps(s, k, t);
  }

  lemma SweepCommitKeeps(s: State, t: State)
    requires Inv(s) && DoSweepCommit(s, t)
    ensures Inv(t)
  {
    hide Promised;
    forall g | g in t.grants ensures GrantHolds(t, g) {
      assert GrantHolds(s, g);
      forall o | o in Promised(g) ensures Delivered(t, g, o) { assert Delivered(s, g, o); }
    }
    forall i, o | Relied(t, i, o) ensures Relied(s, i, o) {}
  }

  lemma PushStepKeeps(s: State, step: Step, t: State)
    requires Inv(s) && Next(s, step, t) && IsPushStep(step)
    ensures Inv(t)
  {
    if step.Insert? { InsertKeeps(s, step.id, step.pending, t); }
    if step.LateLookup? { LateLookupKeeps(s, step.id, step.offered, t); }
    if step.DropPending? { DropPendingKeeps(s, step.id, t); }
    if step.Lookup? { LookupKeeps(s, step.id, step.verify, t); }
    if step.Put? || step.LatePut? || step.Adopt? { UploadKeeps(s, step.id, step.key, t); }
    if step.Register? { RegisterKeeps(s, step.key, step.refs, t); }
    if step.CommitClosure? || step.CommitPush? { CompleteIsUploaded(s, step.id); }
    if step.CommitClosure? { PublishKeeps(s, step.id, {s.pending[step.id].key}); }
    if step.CommitPush? { PublishKeeps(s, step.id, s.pending[step.id].roots + {s.pending[step.id].key}); }
    if step.Expire? { ExpireKeeps(s, step.cutoff, step.keep, step.source, t); }
  }

  lemma ClosureStepKeeps(s: State, step: Step, t: State)
    requires Inv(s) && Next(s, step, t) && IsClosureStep(step)
    ensures Inv(t)
  {
    if step.Tick? { SameRowsKeep(s, t); }
    if step.Touch? { TouchKeeps(s, step.keys, t); }
    if step.PinLock? || step.PinCommit? || step.PinAbort? || step.Unpin? { PinStepKeeps(s, step, t); }
    if step.PurgeScan? || step.PurgeLock? || step.PurgeDelete? || step.PurgeAbort? { PurgeStepKeeps(s, step, t); }
    if step.PurgeCommit? { PurgeCommitKeeps(s, t); }
  }

  lemma SweepKeeps(s: State, step: Step, t: State)
    requires Inv(s) && Next(s, step, t) && !IsPushStep(step) && !IsClosureStep(step) && !step.Mark?
    ensures Inv(t)
  {
    hide Inv;
    if step.SweepRemoved? || step.SweepFailed? || step.SweepStat? {
      SweepEffectKeeps(s, step.key, t);
    } else if step.SweepCommit? {
      SweepCommitKeeps(s, t);
    } else if step.SweepRecheck? {
      RecheckKeeps(s, step.doomed, t);
    } else {
      SweepStepKeeps(s, t);
    }
  }

  lemma StepKeepsInv(s: State, step: Step, t: State)
    requires Inv(s) && Next(s, step, t)
    ensures Inv(t)
  {
    if IsPushStep(step) {
      PushStepKeeps(s, step, t);
    } else if IsClosureStep(step) {
      ClosureStepKeeps(s, step, t);
    } else if step.Mark? {
      MarkKeeps(s, t);
    } else {
      SweepKeeps(s, step, t);
    }
  }

  lemma {:induction false} RunKeepsInv(states: seq<State>, steps: seq<Step>, n: nat)
    requires IsRun(states, steps) && n < |states|
    ensures Inv(states[n])
  {
    if n > 0 {
      RunKeepsInv(states, steps, n - 1);
      StepKeepsInv(states[n - 1], steps[n - 1], states[n]);
    }
  }
}
