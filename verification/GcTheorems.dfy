/** The promises of the protocol, for every execution. */
module GcTheorems {
  import opened Wrappers
  import opened Reachability
  import opened GcState
  import opened GcSteps
  import opened GcSafety

  // ---- published closures ----

  /** The step commits a push that publishes root with the given listing. */
  ghost predicate Publishes(s: State, step: Step, root: Key, objs: map<Key, set<Key>>) {
    && (step.CommitClosure? || step.CommitPush?)
    && step.id in s.pending && s.pending[step.id].objs == objs
    && (root == s.pending[step.id].key || (step.CommitPush? && root in s.pending[step.id].roots))
  }

  ghost predicate RefClosed(objs: map<Key, set<Key>>) {
    forall k, r :: k in objs && r in objs[k] ==> r in objs
  }

  lemma {:induction false} GrantLasts(states: seq<State>, steps: seq<Step>, i: nat, n: nat, root: Key, objs: map<Key,
                                      set<Key>>)
    requires IsRun(states, steps) && i < n < |states|
    requires Publishes(states[i], steps[i], root, objs)
    requires forall j :: i < j <= n ==> root in states[j].closures
    ensures Grant(root, objs) in states[n].grants
  {
    assert Next(states[n - 1], steps[n - 1], states[n]);
    if n > i + 1 {
      GrantLasts(states, steps, i, n - 1, root, objs);
      if steps[n - 1].PurgeCommit? {
        assert root in states[n].closures;
      }
    }
  }

  /** As long as the closure row of a published root stays, whatever the push listed
      and the root reaches through the listed refs has a live row and its bytes,
      whatever other pushes, pins, cleanups, marks and sweeps do meanwhile. */
  lemma PublishedObjectsSurvive(
    states: seq<State>, steps: seq<Step>, i: nat, n: nat, root: Key, objs: map<Key, set<Key>>, path: seq<Key>)
    requires IsRun(states, steps) && i < n < |states|
    requires Publishes(states[i], steps[i], root, objs)
    requires forall j :: i < j <= n ==> root in states[j].closures
    requires IsPath(objs, path) && path[0] == root && path[|path| - 1] in objs
    ensures Live(states[n].rows, path[|path| - 1]) && path[|path| - 1] in states[n].bucket
  {
    var g := Grant(root, objs);
    GrantLasts(states, steps, i, n, root, objs);
    RunKeepsInv(states, steps, n);
    assert GrantHolds(states[n], g);
    ReachIffPath(objs, {root}, path[|path| - 1]);
    assert Delivered(states[n], g, path[|path| - 1]);
  }

  lemma {:induction false} PathStaysListed(objs: map<Key, set<Key>>, path: seq<Key>)
    requires RefClosed(objs) && IsPath(objs, path) && path[0] in objs
    ensures path[|path| - 1] in objs
  {
    if |path| > 1 {
      PathStaysListed(objs, path[..|path| - 1]);
      assert path[|path| - 1] in Refs(objs, path[|path| - 2]);
    }
  }

  /** For a listing that is closed under refs and names its root, that is the whole
      closure: no reference met on the way is missing. */
  lemma PublishedClosureIsWhole(
    states: seq<State>, steps: seq<Step>, i: nat, n: nat, root: Key, objs: map<Key, set<Key>>, path: seq<Key>)
    requires IsRun(states, steps) && i < n < |states|
    requires Publishes(states[i], steps[i], root, objs) && RefClosed(objs) && root in objs
    requires forall j :: i < j <= n ==> root in states[j].closures
    requires IsPath(objs, path) && path[0] == root
    ensures Live(states[n].rows, path[|path| - 1]) && path[|path| - 1] in states[n].bucket
  {
    PathStaysListed(objs, path);
    PublishedObjectsSurvive(states, steps, i, n, root, objs, path);
  }

  /** commit_push refuses unless everything it names is listed or live; afterwards all of it is live. */
  lemma CommitPushNamesLiveObjects(s: State, id: Id, t: State, k: Key)
    requires DoCommitPush(s, id, t)
    requires k in s.pending[id].roots || exists o :: o in s.pending[id].objs && k in s.pending[id].objs[o]
    ensures Live(t.rows, k)
  {
    assert k !in Missing(s.rows, s.pending[id]);
  }

  /** The client has uploaded all it was told to upload, and no sweep or purge and no pin
      request holds a row the commit writes. */
  ghost predicate IsReady(s: State, id: Id, roots: set<Key>) {
    && id in s.pending && id in s.sessions && s.sessions[id].Checked?
    && (forall k :: k in s.sessions[id].offered ==> k in s.sessions[id].uploaded)
    && (s.sweep.Locked? || s.sweep.Deleting? ==> forall k :: k in s.pending[id].objs ==> k !in s.sweep.keys)
    && (s.purge.PurgeLocked? || s.purge.PurgeDeleting? ==> forall r :: r in roots ==> r !in s.purge.keys)
    && forall c :: c in s.pinTxs ==> s.pinTxs[c].key !in roots
  }

  /** The push names the key: as a root, or in the refs of an object it lists. */
  ghost predicate Names(p: Pending, k: Key) {
    k in p.roots || exists o :: o in p.objs && k in p.objs[o]
  }

  /** What a commit makes of the tables: each listed object is live and has the old refs and
      the new ones, each root is as new as the commit, the push is gone, and that is all. */
  ghost predicate IsPublished(s: State, p: Pending, id: Id, roots: set<Key>, t: State) {
    && (forall k :: k in p.objs ==>
          && k in t.rows && t.rows[k].deletedAt.None? && (StampsAgree(s) ==> t.rows[k].firstDeletedAt.None?)
          && t.rows[k].refs == if k in s.rows then s.rows[k].refs + p.objs[k] else p.objs[k])
    && (forall k :: k !in p.objs ==> (k in t.rows <==> k in s.rows) && (k in s.rows ==> t.rows[k] == s.rows[k]))
    && (forall r :: r in t.closures <==> r in s.closures || r in roots)
    && (forall r :: r in t.closures ==> t.closures[r] == if r in roots then s.now else s.closures[r])
    && t.pending == s.pending - {id}
    && t == s.(rows := t.rows, closures := t.closures, pending := t.pending, grants := t.grants)
  }

  lemma PublishIs(s: State, id: Id, roots: set<Key>)
    requires id in s.pending
    ensures IsPublished(s, s.pending[id], id, roots, Publish(s, id, roots))
  {
    var objs, t := s.pending[id].objs, Publish(s, id, roots);
    forall k | k in objs
      ensures t.rows[k].refs == if k in s.rows then s.rows[k].refs + objs[k] else objs[k]
    {
      if Live(s.rows, k) && objs[k] <= s.rows[k].refs { assert s.rows[k].refs + objs[k] == s.rows[k].refs; }
    }
  }

  lemma UnblockedIff(s: State, id: Id, roots: set<Key>)
    ensures id in s.pending && MayComplete(s, id) && CommitUnblocked(s, id, roots) <==> IsReady(s, id, roots)
  {
  }

  /** A push can be committed exactly when it is ready and all it names is listed or live;
      and then the commit publishes it. */
  lemma CommitPushIff(s: State, id: Id)
    ensures (exists t :: DoCommitPush(s, id, t))
      <==> && id in s.pending && IsReady(s, id, s.pending[id].roots + {s.pending[id].key})
           && forall k :: Names(s.pending[id], k) ==> k in s.pending[id].objs || Live(s.rows, k)
    ensures forall t :: DoCommitPush(s, id, t) ==>
      IsPublished(s, s.pending[id], id, s.pending[id].roots + {s.pending[id].key}, t)
  {
    if id in s.pending {
      var p := s.pending[id];
      var roots := p.roots + {p.key};
      UnblockedIff(s, id, roots);
      PublishIs(s, id, roots);
      hide Publish, IsPublished, IsReady, CommitUnblocked, MayComplete;
      assert Missing(s.rows, p) == {} <==> forall k :: Names(p, k) ==> k in p.objs || Live(s.rows, k) by {
        forall k ensures k in Missing(s.rows, p) <==> Names(p, k) && k !in p.objs && !Live(s.rows, k) {}
      }
      assert DoCommitPush(s, id, Publish(s, id, roots)) || !(exists t :: DoCommitPush(s, id, t));
    }
  }

  /** A closure of its own is not looked through: ready is enough. */
  lemma CommitClosureIff(s: State, id: Id)
    ensures (exists t :: DoCommitClosure(s, id, t)) <==> id in s.pending && IsReady(s, id, {s.pending[id].key})
    ensures forall t :: DoCommitClosure(s, id, t) ==>
      IsPublished(s, s.pending[id], id, {s.pending[id].key}, t)
  {
    if id in s.pending {
      var roots := {s.pending[id].key};
      UnblockedIff(s, id, roots);
      PublishIs(s, id, roots);
      hide Publish, IsPublished, IsReady, CommitUnblocked, MayComplete;
      assert DoCommitClosure(s, id, Publish(s, id, roots)) || !(exists t :: DoCommitClosure(s, id, t));
    }
  }

  // ---- what the other requests can do ----

  /** No purge holds the closure, and no pin request. */
  predicate IsFree(s: State, k: Key) {
    && (s.purge.PurgeLocked? || s.purge.PurgeDeleting? ==> k !in s.purge.keys)
    && forall c :: c in s.pinTxs ==> s.pinTxs[c].key != k
  }

  /** Closures whose narinfo is live can be touched, unless their row is held; that makes them as
      new as the moment. */
  lemma TouchIff(s: State, keys: set<Key>)
    ensures (exists t :: DoTouch(s, keys, t)) <==>
      forall k :: k in keys ==> k in s.closures && k in s.rows && s.rows[k].deletedAt.None? && IsFree(s, k)
    ensures forall t :: DoTouch(s, keys, t) ==>
      && t == s.(closures := t.closures) && t.closures.Keys == s.closures.Keys
      && forall k :: k in s.closures ==> t.closures[k] == if k in keys then s.now else s.closures[k]
  {
    var t := s.(closures := map k | k in s.closures :: if k in keys then s.now else s.closures[k]);
    forall k ensures IsFree(s, k) <==> k !in LockedClosures(s) && !IsShared(s, k) {}
    assert DoTouch(s, keys, t) || !(exists u :: DoTouch(s, keys, u));
  }

  /** A pin can be taken back at any time, and only itself. */
  lemma UnpinIff(s: State, name: string)
    ensures (exists t :: DoUnpin(s, name, t)) <==> name in s.pins
    ensures forall t :: DoUnpin(s, name, t) ==>
      && t == s.(pins := t.pins) && name !in t.pins
      && forall n :: n in s.pins && n != name ==> n in t.pins && t.pins[n] == s.pins[n]
  {
    assert DoUnpin(s, name, s.(pins := s.pins - {name})) || name !in s.pins;
  }

  /** The client was told to upload the object. */
  predicate IsOffered(s: State, id: Id, k: Key) {
    id in s.sessions && s.sessions[id].Checked? && k in s.sessions[id].offered
  }

  /** From s to t the push has noted the upload of k, and the bucket is this. */
  predicate Notes(s: State, id: Id, k: Key, bucket: set<Key>, t: State)
    requires id in s.sessions && s.sessions[id].Checked?
  {
    var c := s.sessions[id];
    t == s.(bucket := bucket, sessions := s.sessions[id := Checked(c.offered, c.uploaded + {k})])
  }

  /** What was offered can be uploaded at any time, also after the push has expired; it counts
      as uploaded without that only while the push is pending and if its bytes are there. */
  lemma UploadIff(s: State, id: Id, k: Key)
    ensures (exists t :: DoPut(s, id, k, t)) <==> IsOffered(s, id, k) && id in s.pending
    ensures (exists t :: DoLatePut(s, id, k, t)) <==> IsOffered(s, id, k) && id !in s.pending
    ensures (exists t :: DoAdopt(s, id, k, t)) <==> IsOffered(s, id, k) && id in s.pending && k in s.bucket
    ensures forall t :: DoPut(s, id, k, t) || DoLatePut(s, id, k, t) ==> Notes(s, id, k, s.bucket + {k}, t)
    ensures forall t :: DoAdopt(s, id, k, t) ==> Notes(s, id, k, s.bucket, t)
  {
    if IsOffered(s, id, k) {
      var t := s.(bucket := s.bucket + {k}, sessions := NoteUpload(s, id, k));
      assert id in s.pending ==> DoPut(s, id, k, t);
      assert id !in s.pending ==> DoLatePut(s, id, k, t);
      assert id in s.pending && k in s.bucket ==> DoAdopt(s, id, k, s.(sessions := NoteUpload(s, id, k)));
    }
  }

  /** An object whose bytes are there can be registered while a push lists it and no sweep holds
      its row: with no refs, or those a push lists. It is live then, and has its old refs too. */
  lemma RegisterIff(s: State, k: Key, refs: set<Key>)
    ensures (exists t :: DoRegister(s, k, refs, t)) <==>
      && k in s.bucket && (exists id :: id in s.pending && k in s.pending[id].objs)
      && (s.sweep.Locked? || s.sweep.Deleting? ==> k !in s.sweep.keys)
      && (refs == {} || exists id :: id in s.pending && k in s.pending[id].objs && s.pending[id].objs[k] == refs)
    ensures forall t :: DoRegister(s, k, refs, t) ==>
      && t == s.(rows := t.rows) && t.rows.Keys == s.rows.Keys + {k}
      && t.rows[k] == Row(if k in s.rows then s.rows[k].refs + refs else refs, None, None)
      && forall o :: o in s.rows && o != k ==> t.rows[o] == s.rows[o]
  {
    var t := s.(rows := s.rows[k := Row(Refs(RowRefs(s.rows), k) + refs, None, None)]);
    assert DoRegister(s, k, refs, t) || !(exists u :: DoRegister(s, k, refs, u));
  }

  // ---- the sweep ----

  /** The bucket loses a key only in a sweep, and then the key is a tombstone that no
      checked push relies on and no published closure was promised. */
  lemma OnlyGarbageLeavesTheBucket(states: seq<State>, steps: seq<Step>, n: nat, k: Key)
    requires IsRun(states, steps) && n < |steps|
    requires k in states[n].bucket && k !in states[n + 1].bucket
    ensures steps[n] == SweepRemoved(k) || steps[n] == SweepFailed(k, true)
    ensures k in states[n].rows && states[n].rows[k].deletedAt.Some?
    ensures forall id :: !Relied(states[n], id, k)
    ensures forall g :: g in states[n].grants ==> k !in Promised(g)
  {
    RunKeepsInv(states, steps, n);
    assert Next(states[n], steps[n], states[n + 1]);
    forall g | g in states[n].grants ensures k !in Promised(g) {
      assert GrantHolds(states[n], g);
      assert k in Promised(g) ==> Delivered(states[n], g, k);
    }
  }

  /** In a reachable state the verify_s3 option changes nothing: the database is right. */
  lemma VerifyingS3IsRedundant(states: seq<State>, steps: seq<Step>, n: nat, objs: map<Key, set<Key>>)
    requires IsRun(states, steps) && n < |states|
    ensures Present(states[n], objs, true) == Present(states[n], objs, false)
  {
    RunKeepsInv(states, steps, n);
  }

  /** Some walk along row refs leads from a closure to k. */
  ghost predicate WalksTo(s: State, k: Key) {
    exists p :: IsPath(RowRefs(s.rows), p) && p[0] in s.closures.Keys * s.rows.Keys && p[|p| - 1] == k
  }

  /** MarkStaleObjects stamps exactly the live rows that no closure reaches and no push lists. */
  lemma MarkIsExact(s: State, t: State, k: Key)
    requires DoMark(s, t) && k in s.rows
    ensures Live(t.rows, k) <==> Live(s.rows, k) && (IsPending(s, k) || WalksTo(s, k))
  {
    ReachIffPath(RowRefs(s.rows), s.closures.Keys * s.rows.Keys, k);
  }

  // ---- pins ----

  /** Every pin, and every pin request in flight, names an existing closure. */
  lemma PinsNameClosures(states: seq<State>, steps: seq<Step>, n: nat, p: string)
    requires IsRun(states, steps) && n < |states| && p in states[n].pins
    ensures states[n].pins[p] in states[n].closures
  {
    RunKeepsInv(states, steps, n);
  }

  lemma PushesLoseNoClosure(s: State, step: Step, t: State)
    requires Next(s, step, t) && IsPushStep(step)
    ensures s.closures.Keys <= t.closures.Keys
  {
  }

  lemma ClosureStepsLoseNoClosure(s: State, step: Step, t: State)
    requires Next(s, step, t) && IsClosureStep(step) && !step.PurgeCommit?
    ensures s.closures.Keys <= t.closures.Keys
  {
  }

  lemma OtherStepsKeepClosures(s: State, step: Step, t: State)
    requires Next(s, step, t) && !step.PurgeCommit?
    ensures s.closures.Keys <= t.closures.Keys
  {
    if IsPushStep(step) {
      PushesLoseNoClosure(s, step, t);
    } else if IsClosureStep(step) {
      ClosureStepsLoseNoClosure(s, step, t);
    } else {
      assert t.closures == s.closures;
    }
  }

  /** A purge deletes neither a pinned closure nor one a pin request holds, however the two
      transactions interleave. */
  lemma PurgeSparesPins(states: seq<State>, steps: seq<Step>, n: nat, k: Key)
    requires IsRun(states, steps) && n < |steps|
    requires k in states[n].closures && k !in states[n + 1].closures
    ensures steps[n].PurgeCommit? && !IsPinned(states[n], k) && !IsShared(states[n], k)
  {
    RunKeepsInv(states, steps, n);
    if !steps[n].PurgeCommit? { OtherStepsKeepClosures(states[n], steps[n], states[n + 1]); }
  }

  // ---- nothing becomes uncollectable ----

  /** Every key in the bucket has a row, or is listed by a checked push whose cleanup
      will give it one; and the sweep's removed keys stay removed. */
  ghost predicate Covered(s: State) {
    && (forall k :: k in s.bucket ==> k in s.rows || exists id :: Relied(s, id, k))
    && (s.sweep.Deleting? ==> s.sweep.gone !! s.bucket)
  }

  /** Each relied-on key stays relied on or gets a row. */
  lemma ReliedOrRow(s: State, step: Step, t: State, id: Id, k: Key)
    requires Inv(s) && Next(s, step, t) && Relied(s, id, k)
    ensures Relied(t, id, k) || k in t.rows
  {
    if !IsPushStep(step) {
      OtherStepsLeavePushes(s, step, t);
    } else if step.Expire? {
      ExpiredGetRows(s, step.cutoff, step.keep, step.source, t, id, k);
    } else if step.CommitClosure? {
      PublishingKeepsRelied(s, step.id, {s.pending[step.id].key}, id, k);
    } else if step.CommitPush? {
      PublishingKeepsRelied(s, step.id, s.pending[step.id].roots + {s.pending[step.id].key}, id, k);
    } else {
      PushesKeepRelied(s, step, t, id, k);
    }
  }

  lemma PublishingKeepsRelied(s: State, push: Id, roots: set<Key>, id: Id, k: Key)
    requires push in s.pending && Relied(s, id, k)
    ensures Relied(Publish(s, push, roots), id, k) || k in Publish(s, push, roots).rows
  {
  }

  lemma ExpiredGetRows(s: State, cutoff: Time, keep: set<Id>, source: map<Key, Id>, t: State, id: Id, k: Key)
    requires DoExpire(s, cutoff, keep, source, t) && Relied(s, id, k)
    ensures Relied(t, id, k) || k in t.rows
  {
    if id in Old(s, cutoff, keep) && k !in s.rows {
      assert k in Orphaned(s, Old(s, cutoff, keep));
    }
  }

  lemma PushesKeepRelied(s: State, step: Step, t: State, id: Id, k: Key)
    requires Inv(s) && Next(s, step, t) && IsPushStep(step) && Relied(s, id, k)
    requires !step.Expire? && !step.CommitClosure? && !step.CommitPush?
    ensures Relied(t, id, k) || k in t.rows
  {
    hide GrantsHold, PinsSafe, LiveBacked, SweepSafe, StampsAgree, Missing, CommitUnblocked;
  }

  lemma PushesLoseNoRow(s: State, step: Step, t: State)
    requires Next(s, step, t) && IsPushStep(step)
    ensures s.rows.Keys <= t.rows.Keys
  {
  }

  lemma RowsOnlyLeaveInSweepCommit(s: State, step: Step, t: State, k: Key)
    requires Next(s, step, t) && k in s.rows && k !in t.rows
    ensures step.SweepCommit? && s.sweep.Deleting? && k in s.sweep.gone
  {
    if IsPushStep(step) {
      PushesLoseNoRow(s, step, t);
    } else if IsClosureStep(step) {
      ClosureStepLeaves(s, step, t);
    }
  }

  lemma OtherStepsAddNoBytes(s: State, step: Step, t: State)
    requires Next(s, step, t) && !step.Put? && !step.LatePut?
    ensures t.bucket <= s.bucket
  {
    if IsClosureStep(step) {
      ClosureStepLeaves(s, step, t);
    } else if WritesRows(step) {
      WritingPushStep(s, step, t);
    } else if IsPushStep(step) {
      QuietPushStep(s, step, t);
    } else {
      SweepAddsNoBytes(s, step, t);
    }
    hide Next;
  }

  lemma SweepAddsNoBytes(s: State, step: Step, t: State)
    requires Next(s, step, t) && !IsPushStep(step) && !IsClosureStep(step)
    ensures t.bucket <= s.bucket
  {
  }

  lemma BucketOnlyGrowsByPut(s: State, step: Step, t: State, k: Key)
    requires Next(s, step, t) && k !in s.bucket && k in t.bucket
    ensures (step.Put? || step.LatePut?) && step.key == k && Offered(s, step.id, k)
    ensures step.Put? <==> step.id in s.pending
  {
    if !step.Put? && !step.LatePut? { OtherStepsAddNoBytes(s, step, t); }
  }

  lemma StepKeepsCovered(s: State, step: Step, t: State)
    requires Inv(s) && Covered(s) && Next(s, step, t) && !step.LatePut?
    ensures Covered(t)
  {
    forall k | k in t.bucket ensures k in t.rows || exists id :: Relied(t, id, k) {
      if k !in s.bucket {
        BucketOnlyGrowsByPut(s, step, t, k);
        assert Relied(t, step.id, k);
      } else if k in s.rows {
        if k !in t.rows { RowsOnlyLeaveInSweepCommit(s, step, t, k); }
      } else {
        var id :| Relied(s, id, k);
        ReliedOrRow(s, step, t, id, k);
      }
    }
    GoneStaysGone(s, step, t);
  }

  /** A removed key comes from before, or has just been removed. */
  lemma GoneIsOld(s: State, step: Step, t: State)
    requires Next(s, step, t) && t.sweep.Deleting?
    ensures forall k :: k in t.sweep.gone ==> (s.sweep.Deleting? && k in s.sweep.gone) || k !in t.bucket
  {
    if IsPushStep(step) && !WritesRows(step) {
      QuietPushStep(s, step, t);
    } else if IsPushStep(step) {
      WritingPushStep(s, step, t);
    } else if IsClosureStep(step) {
      ClosureStepLeaves(s, step, t);
    } else {
      SweepGoneIsOld(s, step, t);
    }
    hide Next;
  }

  lemma SweepGoneIsOld(s: State, step: Step, t: State)
    requires Next(s, step, t) && t.sweep.Deleting? && !IsPushStep(step) && !IsClosureStep(step)
    ensures forall k :: k in t.sweep.gone ==> (s.sweep.Deleting? && k in s.sweep.gone) || k !in t.bucket
  {
    hide Kept, Ripe, Unpending;
  }

  lemma PutIsRelied(s: State, id: Id, k: Key)
    requires Inv(s) && Offered(s, id, k) && id in s.pending
    ensures Relied(s, id, k)
  {
  }

  lemma GoneStaysGone(s: State, step: Step, t: State)
    requires Inv(s) && Covered(s) && Next(s, step, t) && !step.LatePut?
    ensures t.sweep.Deleting? ==> t.sweep.gone !! t.bucket
  {
    if t.sweep.Deleting? {
      GoneIsOld(s, step, t);
      forall k | k in t.sweep.gone ensures k !in t.bucket {
        if k in t.bucket && k !in s.bucket {
          BucketOnlyGrowsByPut(s, step, t, k);
          PutIsRelied(s, step.id, k);
        }
      }
    }
    hide Next;
  }

  /** With every PUT landing while its push is pending, nothing in the bucket is ever lost track of. */
  lemma {:induction false} NothingIsUncollectable(states: seq<State>, steps: seq<Step>, n: nat)
    requires IsRun(states, steps) && n < |states|
    requires forall i :: 0 <= i < n ==> !steps[i].LatePut?
    ensures Covered(states[n])
  {
    if n > 0 {
      NothingIsUncollectable(states, steps, n - 1);
      RunKeepsInv(states, steps, n - 1);
      StepKeepsCovered(states[n - 1], steps[n - 1], states[n]);
    }
  }

  /** A late PUT is harmless exactly when the key still has a row or a checked push and
      the sweep has not just removed it. */
  lemma LatePutCoveredIff(s: State, id: Id, k: Key, t: State)
    requires Inv(s) && Covered(s) && DoLatePut(s, id, k, t)
    ensures Covered(t) <==>
      (k in s.rows || exists i :: Relied(s, i, k)) && (s.sweep.Deleting? ==> k !in s.sweep.gone)
  {
    forall i, o ensures Relied(s, i, o) <==> Relied(t, i, o) {}
    if (k in s.rows || exists i :: Relied(s, i, k)) && (s.sweep.Deleting? ==> k !in s.sweep.gone) {
      forall o | o in t.bucket ensures o in t.rows || exists i :: Relied(t, i, o) {
        if o !in s.rows {
          var i :| Relied(s, i, o);
          assert Relied(t, i, o);
        }
      }
    } else if Covered(t) {
      assert k in t.bucket;
    }
  }

  // ---- what the database does not check itself ----

  /** Committing a push is safe exactly when its objects are all in the bucket. The commit
      does not look; the client has to have uploaded everything it was offered. */
  lemma CommitIsSafeIff(s: State, id: Id, roots: set<Key>)
    requires Inv(s) && id in s.pending && CommitUnblocked(s, id, roots)
    ensures Inv(Publish(s, id, roots)) <==> s.pending[id].objs.Keys <= s.bucket
  {
    var t := Publish(s, id, roots);
    if s.pending[id].objs.Keys <= s.bucket {
      PublishKeeps(s, id, roots);
    } else {
      var k :| k in s.pending[id].objs && k !in s.bucket;
      assert k in t.rows && t.rows[k].deletedAt.None?;
    }
  }

  /** RegisterCompletedObject on its own, without the stat that precedes it. */
  ghost predicate DoRegisterUnseen(s: State, k: Key, refs: set<Key>, t: State) {
    && IsPending(s, k) && k !in LockedRows(s)
    && (refs == {} || exists id :: id in s.pending && k in s.pending[id].objs && s.pending[id].objs[k] == refs)
    && t == s.(rows := s.rows[k := Row(Refs(RowRefs(s.rows), k) + refs, None, None)])
  }

  /** Registering is safe exactly when the object is still in the bucket at that moment. */
  lemma RegisterIsSafeIff(s: State, k: Key, refs: set<Key>, t: State)
    requires Inv(s) && DoRegisterUnseen(s, k, refs, t)
    ensures Inv(t) <==> k in s.bucket
  {
    if k in s.bucket {
      RegisterKeeps(s, k, refs, t);
    } else {
      assert k in t.rows && t.rows[k].deletedAt.None?;
    }
  }
}
