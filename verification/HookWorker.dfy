/** The upload worker of the post-build hook: one step, one batch, and the final drain. */
module HookWorker {
  import opened Wrappers
  import opened HookQueue

  const IsolationProbes: nat := 3
  const DefaultBatchSize: int := 50

  /** What the outside answers, whenever it is asked: the push function, stat, and the
      context's deadline. Time is the number of questions so far. */
  datatype World = World(
    push: (nat, seq<string>) -> Option<seq<string>>,
    onDisk: (nat, string) -> bool,
    expired: nat -> bool)

  /** What PushPaths gives. It drops the paths that are cached already and returns the
      closure of the rest, or the batch if nothing is left: a result longer than the batch
      contains some path of it, but not always all. */
  ghost predicate PushContract(w: World) {
    forall t, batch :: batch != [] && w.push(t, batch).Some? && |w.push(t, batch).value| > |batch| ==>
      Meets(batch, w.push(t, batch).value)
  }

  predicate Meets(a: seq<string>, b: seq<string>) {
    exists p :: p in a && p in b
  }

  /** What settle takes out of the queue. */
  function Settled(batch: seq<string>, up: seq<string>): seq<string> {
    if |up| > |batch| then up else batch
  }

  // ---- what any piece of the worker's code may do ----

  /** What the worker asks. */
  datatype Question = AskPush(batch: seq<string>) | AskDisk(path: string) | AskDeadline

  /** Since question `from`, a push of p, or one whose result contains p, has succeeded. */
  ghost predicate WentUp(w: World, history: seq<Question>, from: nat, p: string) {
    exists t :: from <= t < |history| && IsPushOf(w, t, history[t], p)
  }

  ghost predicate IsPushOf(w: World, t: nat, q: Question, p: string) {
    q.AskPush? && w.push(t, q.batch).Some? && (p in q.batch || p in w.push(t, q.batch).value)
  }

  /** Since question `from`, p was not on disk when asked. */
  ghost predicate WasGone(w: World, history: seq<Question>, from: nat, p: string) {
    exists t :: from <= t < |history| && history[t] == AskDisk(p) && !w.onDisk(t, p)
  }

  /** Since question `from`, p was pushed on its own, and failed. */
  ghost predicate HasFailed(w: World, history: seq<Question>, from: nat, p: string) {
    exists t :: from <= t < |history| && history[t] == AskPush([p]) && w.push(t, [p]).None?
  }

  function PushCount(history: seq<Question>): nat {
    if history == [] then 0 else PushCount(history[..|history| - 1]) + if history[|history| - 1].AskPush? then 1 else 0
  }

  datatype Snapshot = Snapshot(order: seq<string>, tried: set<string>, history: seq<Question>)

  /** From a to b: nothing enters the queue; what leaves it has gone up or was gone from disk
      meanwhile; only failed paths are newly tried; tried paths stay behind untried ones, and
      the untried keep their order. */
  ghost predicate Evolves(w: World, a: Snapshot, b: Snapshot) {
    && a.history <= b.history && a.tried <= b.tried && |b.order| <= |a.order|
    && (forall p :: p in b.order ==> p in a.order)
    && (forall p :: p in a.order ==>
          p in b.order || WentUp(w, b.history, |a.history|, p) || WasGone(w, b.history, |a.history|, p))
    && (forall p :: p in b.tried ==> p in a.tried || HasFailed(w, b.history, |a.history|, p))
    && (TriedLast(a.order, a.tried) ==> TriedLast(b.order, b.tried))
    && OnlyLoses(Without(a.order, a.tried), Without(b.order, b.tried))
  }

  /** A longer history, or an earlier start, keeps what has happened. */
  lemma StillSo(w: World, a: seq<Question>, b: seq<Question>, from: nat, since: nat)
    requires a <= b && from <= since
    ensures forall p :: WentUp(w, a, since, p) ==> WentUp(w, b, from, p)
    ensures forall p :: WasGone(w, a, since, p) ==> WasGone(w, b, from, p)
    ensures forall p :: HasFailed(w, a, since, p) ==> HasFailed(w, b, from, p)
  {
    hide IsPushOf;
    forall p | WentUp(w, a, since, p) ensures WentUp(w, b, from, p) {
      var t :| since <= t < |a| && IsPushOf(w, t, a[t], p);
      assert b[t] == a[t];
    }
    forall p | WasGone(w, a, since, p) ensures WasGone(w, b, from, p) {
      var t :| since <= t < |a| && a[t] == AskDisk(p) && !w.onDisk(t, p);
      assert b[t] == a[t];
    }
    forall p | HasFailed(w, a, since, p) ensures HasFailed(w, b, from, p) {
      var t :| since <= t < |a| && a[t] == AskPush([p]) && w.push(t, [p]).None?;
      assert b[t] == a[t];
    }
  }

  lemma EvolvesTransitive(w: World, a: Snapshot, b: Snapshot, c: Snapshot)
    requires Evolves(w, a, b) && Evolves(w, b, c)
    ensures Evolves(w, a, c)
  {
    hide TriedLast, Without, OnlyLoses, WentUp, WasGone, HasFailed;
    OnlyLosesTransitive(Without(a.order, a.tried), Without(b.order, b.tried), Without(c.order, c.tried));
    StillSo(w, b.history, c.history, |a.history|, |a.history|);
    StillSo(w, c.history, c.history, |a.history|, |b.history|);
  }

  lemma EvolvesRefl(w: World, a: Snapshot)
    ensures Evolves(w, a, a)
  {
    WithoutHolds(Without(a.order, a.tried), {});
  }

  /** Asking changes nothing but the history. */
  lemma AskingEvolves(w: World, a: Snapshot, b: Snapshot, q: Question)
    requires Evolves(w, a, b)
    ensures Evolves(w, a, b.(history := b.history + [q]))
  {
    hide TriedLast, Without, OnlyLoses, WentUp, WasGone, HasFailed;
    StillSo(w, b.history, b.history + [q], |a.history|, |a.history|);
  }

  lemma EvolvesShrinks(w: World, a: Snapshot, b: Snapshot)
    requires Evolves(w, a, b)
    ensures |b.order| <= |a.order|
  {
  }

  lemma EvolvesKeeps(w: World, a: Snapshot, b: Snapshot)
    requires Evolves(w, a, b)
    ensures forall p :: p in a.order ==>
      p in b.order || WentUp(w, b.history, |a.history|, p) || WasGone(w, b.history, |a.history|, p)
  {
  }

  lemma StartIsEarlier(w: World, a: Snapshot, b: Snapshot)
    requires Evolves(w, a, b)
    ensures |a.history| <= |b.history|
  {
  }

  lemma RemovalEvolves(w: World, a: Snapshot, b: Snapshot, gone: set<string>)
    requires Evolves(w, a, b)
    requires forall p :: p in gone ==> WentUp(w, b.history, |a.history|, p) || WasGone(w, b.history, |a.history|, p)
    ensures Evolves(w, a, b.(order := Without(b.order, gone)))
  {
    hide TriedLast, Without, OnlyLoses, WentUp, WasGone, HasFailed;
    WithoutHolds(b.order, gone);
    RemovedIsUntriedLost(b.order, gone, b.tried);
    OnlyLosesTransitive(Without(a.order, a.tried), Without(b.order, b.tried), Without(Without(b.order, gone), b.tried));
    if TriedLast(b.order, b.tried) { WithoutKeepsTriedLast(b.order, gone, b.tried); }
  }

  lemma RetryEvolves(w: World, a: Snapshot, b: Snapshot, p: string)
    requires Evolves(w, a, b) && HasFailed(w, b.history, |a.history|, p)
    ensures Evolves(w, a, b.(order := MovedBack(b.order, p), tried := b.tried + {p}))
  {
    hide TriedLast, Without, OnlyLoses, WentUp, WasGone, HasFailed, MovedBack;
    MovedBackHolds(b.order, p);
    MovedLoses(b.order, p, b.tried);
    OnlyLosesTransitive(Without(a.order, a.tried), Without(b.order, b.tried),
        Without(MovedBack(b.order, p), b.tried + {p}));
    if TriedLast(b.order, b.tried) { MoveKeepsTriedLast(b.order, p, b.tried); }
  }

  lemma MovedLoses(s: seq<string>, p: string, tried: set<string>)
    ensures OnlyLoses(Without(s, tried), Without(MovedBack(s, p), tried + {p}))
  {
    hide OnlyLoses;
    MovedIsUntriedLost(s, p, tried);
  }

  lemma PushIsAsked(w: World, history: seq<Question>, from: nat, batch: seq<string>)
    requires from <= |history|
    ensures PushCount(history + [AskPush(batch)]) == PushCount(history) + 1
    ensures var t, h := |history|, history + [AskPush(batch)];
      && (w.push(t, batch).Some? ==>
            forall p :: p in Elements(batch) + Elements(w.push(t, batch).value) ==> WentUp(w, h, from, p))
      && (w.push(t, batch).None? && |batch| == 1 ==> HasFailed(w, h, from, batch[0]))
  {
    var t, h := |history|, history + [AskPush(batch)];
    assert h[..t] == history && h[t] == AskPush(batch);
    if w.push(t, batch).Some? {
      forall p | p in Elements(batch) + Elements(w.push(t, batch).value) ensures WentUp(w, h, from, p) {
        assert IsPushOf(w, t, h[t], p);
      }
    } else if |batch| == 1 {
      assert batch == [batch[0]];
    }
  }

  lemma OtherIsAsked(w: World, history: seq<Question>, from: nat, q: Question)
    requires from <= |history| && !q.AskPush?
    ensures PushCount(history + [q]) == PushCount(history)
    ensures q.AskDisk? && !w.onDisk(|history|, q.path) ==> WasGone(w, history + [q], from, q.path)
  {
    var h := history + [q];
    assert h[..|history|] == history && h[|history|] == q;
  }

  // ---- the worker ----

  class Worker {
    const queue: Queue
    const world: World
    const batchSize: nat
    var clock: nat
    var pushes: nat
    ghost var history: seq<Question>   // what was asked at each time
    ghost var tried: set<string>       // pushed on its own, and failed

    ghost predicate Valid()
      reads this, queue
    {
      && queue.Valid() && batchSize > 0 && PushContract(world)
      && clock == |history| && pushes == PushCount(history)
      && forall p :: p in tried ==> HasFailed(world, history, 0, p)
    }

    ghost function Now(): Snapshot
      reads this, queue
    {
      Snapshot(queue.order, tried, history)
    }

    constructor (queue: Queue, world: World, batchSize: int)
      requires queue.Valid() && PushContract(world)
      ensures Valid() && this.queue == queue && this.world == world
      ensures this.batchSize == if batchSize <= 0 then 50 else batchSize
      ensures tried == {} && history == [] && pushes == 0
    {
      this.queue, this.world := queue, world;
      this.batchSize := if batchSize <= 0 then DefaultBatchSize else batchSize;
      clock, pushes, tried, history := 0, 0, {}, [];
    }

    method Push(batch: seq<string>, ghost start: Snapshot) returns (r: Option<seq<string>>)
      requires Valid() && Evolves(world, start, Now())
      modifies this`clock, this`pushes, this`history
      ensures Valid() && r == world.push(old(clock), batch) && pushes == old(pushes) + 1
      ensures history == old(history) + [AskPush(batch)] && Evolves(world, start, Now())
      ensures r.Some? ==> forall p :: p in Elements(batch) + Elements(r.value) ==>
        WentUp(world, history, |start.history|, p)
      ensures r.None? && |batch| == 1 ==> HasFailed(world, history, |start.history|, batch[0])
    {
      hide Evolves, PushContract, WentUp, HasFailed, PushCount;
      StartIsEarlier(world, start, Now());
      StillSo(world, history, history + [AskPush(batch)], 0, 0);
      PushIsAsked(world, history, |start.history|, batch);
      AskingEvolves(world, start, Now(), AskPush(batch));
      r := world.push(clock, batch);
      clock, pushes, history := clock + 1, pushes + 1, history + [AskPush(batch)];
    }

    method Stat(p: string, ghost start: Snapshot) returns (there: bool)
      requires Valid() && Evolves(world, start, Now())
      modifies this`clock, this`history
      ensures Valid() && there == world.onDisk(old(clock), p)
      ensures history == old(history) + [AskDisk(p)] && Evolves(world, start, Now())
      ensures !there ==> WasGone(world, history, |start.history|, p)
    {
      hide Evolves, PushContract, WasGone, HasFailed, PushCount;
      StartIsEarlier(world, start, Now());
      StillSo(world, history, history + [AskDisk(p)], 0, 0);
      OtherIsAsked(world, history, |start.history|, AskDisk(p));
      AskingEvolves(world, start, Now(), AskDisk(p));
      there := world.onDisk(clock, p);
      clock, history := clock + 1, history + [AskDisk(p)];
    }

    method ContextErr(ghost start: Snapshot) returns (expired: bool)
      requires Valid() && Evolves(world, start, Now())
      modifies this`clock, this`history
      ensures Valid() && expired == world.expired(old(clock))
      ensures history == old(history) + [AskDeadline] && Evolves(world, start, Now())
    {
      hide Evolves, PushContract, HasFailed, PushCount;
      StartIsEarlier(world, start, Now());
      StillSo(world, history, history + [AskDeadline], 0, 0);
      OtherIsAsked(world, history, 0, AskDeadline);
      AskingEvolves(world, start, Now(), AskDeadline);
      expired := world.expired(clock);
      clock, history := clock + 1, history + [AskDeadline];
    }

    method Retry(p: string, ghost start: Snapshot)
      requires Valid() && Evolves(world, start, Now()) && HasFailed(world, history, |start.history|, p)
      modifies queue, this`tried
      ensures Valid() && queue.order == MovedBack(old(queue.order), p) && tried == old(tried) + {p}
      ensures Evolves(world, start, Now())
    {
      hide Evolves, PushContract, HasFailed, PushCount;
      StillSo(world, history, history, 0, |start.history|);
      RetryEvolves(world, start, Now(), p);
      queue.Retry([p]);
      assert [p][..0] == [];
      tried := tried + {p};
    }

    method Settle(batch: seq<string>, up: seq<string>, ghost start: Snapshot) returns (removed: seq<string>)
      requires Valid() && Evolves(world, start, Now())
      requires forall p :: p in Elements(batch) + Elements(up) ==> WentUp(world, history, |start.history|, p)
      modifies queue
      ensures Valid() && removed == Settled(batch, up) && queue.order == Without(old(queue.order), Elements(removed))
      ensures Evolves(world, start, Now())
    {
      hide Evolves, PushContract, WentUp, HasFailed, PushCount;
      removed := if |up| > |batch| then up else batch;
      RemovalEvolves(world, start, Now(), Elements(removed));
      queue.Remove(removed);
    }

    /** One batch. If its push succeeds, what settle takes leaves the queue. If it makes no
        progress, the paths that were probed alone, the first n of the batch, have failed
        and moved to the back; nothing else has changed. */
    method Upload(batch: seq<string>) returns (progress: bool, ghost n: nat)
      requires Valid() && batch != [] && Distinct(batch) && forall p :: p in batch ==> p in queue.order
      modifies queue, this`clock, this`pushes, this`history, this`tried
      ensures Valid() && Evolves(world, old(Now()), Now())
      ensures progress ==> |queue.order| < |old(queue.order)|
      ensures var up := world.push(old(clock), batch);
        up.Some? ==> progress && queue.order == Without(old(queue.order), Elements(Settled(batch, up.value)))
      ensures !progress ==> NoProgress(world, batch, n, old(queue.order), queue.order)
      ensures !progress ==> pushes == old(pushes) + 1 + if |batch| == 1 then 0 else n
      ensures AllFail(world) ==> !progress
      ensures forall bad :: FailExactly(world, bad) && |bad| < IsolationProbes && NeverExpires(world) ==>
        (world.push(old(clock), batch).None? ==> GoodOnesLeft(batch, bad, queue.order)) && (!progress ==> n == |batch|)
    {
      hide Evolves, PushContract, OnlyLoses, Without, TriedLast, Settled, WentUp, HasFailed, PushCount;
      n := 0;
      ghost var start := Now();
      EvolvesRefl(world, start);
      var up := Push(batch, start);
      if up.Some? {
        SettledMeets(world, old(clock), batch);
        var removed := Settle(batch, up.value, start);
        BatchLeft(old(queue.order), batch, removed);
        return true, 0;
      }
      var expired := ContextErr(start);
      if expired {
        NothingMoved(queue.order, batch);
        return false, 0;
      }
      if |batch| == 1 {
        AloneMoved(old(queue.order), batch);
        StillSo(world, old(history) + [AskPush(batch)], history, |start.history|, |start.history|);
        Retry(batch[0], start);
        AloneIsBad(world, batch, old(clock));
        return false, 1;
      }
      progress, n := UploadOneByOne(batch, start);
    }

    /** One path on its own: what was removed with it, or nothing if it failed. */
    method Probe(p: string, ghost start: Snapshot) returns (removed: seq<string>)
      requires Valid() && Evolves(world, start, Now())
      modifies queue, this`clock, this`pushes, this`history, this`tried
      ensures Valid() && Evolves(world, start, Now()) && pushes == old(pushes) + 1
      ensures removed == [] ==> world.push(old(clock), [p]).None? && queue.order == MovedBack(old(queue.order), p)
      ensures removed != [] ==>
        && world.push(old(clock), [p]).Some? && p in removed
        && queue.order == Without(old(queue.order), Elements(removed))
    {
      hide Evolves, PushContract, OnlyLoses, Without, TriedLast, Settled, WentUp, HasFailed, PushCount;
      var up := Push([p], start);
      if up.None? {
        Retry(p, start);
        removed := [];
      } else {
        SettledMeets(world, old(clock), [p]);
        removed := Settle([p], up.value, start);
      }
    }

    /** Each path of a failed batch on its own. */
    method UploadOneByOne(batch: seq<string>, ghost start: Snapshot) returns (progress: bool, ghost n: nat)
      requires Valid() && |batch| > 1 && Distinct(batch) && forall p :: p in batch ==> p in queue.order
      requires Evolves(world, start, Now())
      modifies queue, this`clock, this`pushes, this`history, this`tried
      ensures Valid() && Evolves(world, start, Now())
      ensures progress ==> |queue.order| < |old(queue.order)|
      ensures !progress ==> NoProgress(world, batch, n, old(queue.order), queue.order) && pushes == old(pushes) + n
      ensures AllFail(world) ==> !progress
      ensures forall bad :: FailExactly(world, bad) && |bad| < IsolationProbes ==>
        GoodOnesLeft(batch, bad, queue.order) && (!progress ==> n == |batch|)
    {
      hide Evolves, PushContract, OnlyLoses, Without, TriedLast, AllMovedBack, Probing, FailExactly, GoodOnesLeft,
           NoProgress,
           AllFail, FailedAlone, Distinct, MovedBack, PushCount, HasFailed;
      var done: set<string> := {};
      var failures := 0;
      ProbingStarts(world, batch, queue.order);
      for i := 0 to |batch|
        invariant Valid() && Evolves(world, start, Now())
        invariant Probing(world, batch, i, done, failures, pushes - old(pushes), old(queue.order), queue.order)
      {
        var p := batch[i];
        if p in done {
          SkipKeepsProbing(world, batch, i, done, failures, pushes - old(pushes), old(queue.order), queue.order);
          continue;
        }
        if done == {} && failures >= IsolationProbes {
          ProbingGivesUp(world, batch, i, failures, pushes - old(pushes), old(queue.order), queue.order);
          return false, i;
        }
        label before:
        var removed := Probe(p, start);
        if removed == [] {
          failures := failures + 1;
          FailureKeepsProbing(world, batch, i, done, failures, pushes - old(pushes), old(queue.order),
                              old@before(queue.order), queue.order, old@before(clock));
        } else {
          SuccessKeepsProbing(world, batch, i, done, failures, pushes - old(pushes), old(queue.order),
                              old@before(queue.order), queue.order, removed, old@before(clock));
          done := done + Elements(removed);
        }
      }
      ProbingEnds(world, batch, done, failures, pushes - old(pushes), old(queue.order), queue.order);
      return done != {}, |batch|;
    }

    /** Fetch a batch, drop what is gone from disk, upload the rest. `kept` is what was
        still on disk. */
    method Step() returns (batch: seq<string>, progress: bool, ghost kept: seq<string>, ghost n: nat)
      requires Valid()
      modifies queue, this
      ensures Valid() && Evolves(world, old(Now()), Now())
      ensures batch == old(queue.order)[..if batchSize < |old(queue.order)| then batchSize else |old(queue.order)|]
      ensures |queue.order| <= |old(queue.order)|
      ensures batch == [] ==> progress && queue.order == old(queue.order) && pushes == old(pushes)
      ensures batch != [] && progress ==> |queue.order| < |old(queue.order)|
      ensures !progress ==>
        NoProgress(world, kept, n, Without(old(queue.order), Elements(batch) - Elements(kept)), queue.order)
      ensures !progress ==> KeptOf(batch, kept) && pushes == old(pushes) + 1 + if |kept| == 1 then 0 else n
      ensures AllOnDisk(world) ==> kept == batch
      ensures AllOnDisk(world) && AllFail(world) && batch != [] ==> !progress
      ensures forall bad :: FailExactly(world, bad) && |bad| < IsolationProbes && NeverExpires(world) ==>
        !progress ==> n == |kept| && Elements(kept) <= bad
    {
      hide Evolves, PushContract, OnlyLoses, Without, TriedLast, AllMovedBack, FailExactly, Distinct, WasGone,
           WentUp, HasFailed;
      hide PushCount;
      OrderIsDistinct();
      ghost var start := Now();
      EvolvesRefl(world, start);
      batch := queue.FetchBatch(batchSize);
      kept, n := [], 0;
      if batch == [] {
        return batch, true, kept, n;
      }
      PrefixIsDistinct(queue.order, batch);
      var existing, gced := StatAll(batch, start);
      kept := existing;
      RemovalEvolves(world, start, Now(), Elements(gced));
      queue.Remove(gced);
      GoneLeft(old(queue.order), batch, existing, gced);
      if existing == [] {
        return batch, true, kept, n;
      }
      label removed:
      progress, n := Upload(existing);
      EvolvesTransitive(world, start, old@removed(Now()), Now());
      EvolvesShrinks(world, start, Now());
      StalledAreBad(world, existing, n, old@removed(queue.order), queue.order, progress);
    }

    lemma OrderIsDistinct()
      requires Valid()
      ensures Distinct(queue.order)
    {
    }

    method StatAll(paths: seq<string>, ghost start: Snapshot) returns (existing: seq<string>, gced: seq<string>)
      requires Distinct(paths) && Valid() && Evolves(world, start, Now())
      modifies this`clock, this`history
      ensures Valid() && Evolves(world, start, Now())
      ensures KeptOf(paths, existing) && Distinct(existing) && Elements(gced) == Elements(paths) - Elements(existing)
      ensures AllOnDisk(world) ==> existing == paths
      ensures forall p :: p in Elements(gced) ==> WasGone(world, history, |start.history|, p)
    {
      hide Evolves, PushContract, WasGone, HasFailed, PushCount;
      existing, gced := [], [];
      for i := 0 to |paths|
        invariant forall p :: p in existing ==> p in paths[..i]
        invariant Distinct(existing) && Elements(gced) == Elements(paths[..i]) - Elements(existing)
        invariant AllOnDisk(world) ==> existing == paths[..i]
        invariant Valid() && Evolves(world, start, Now())
        invariant forall p :: p in Elements(gced) ==> WasGone(world, history, |start.history|, p)
      {
        StillSo(world, history, history + [AskDisk(paths[i])], |start.history|, |start.history|);
        var there := Stat(paths[i], start);
        NextPath(paths, i, existing, gced);
        if there {
          existing := existing + [paths[i]];
        } else {
          gced := gced + [paths[i]];
        }
      }
      assert paths[..|paths|] == paths;
    }

    /** The last pass before exit. */
    method Drain()
      requires Valid()
      modifies queue, this
      ensures Valid() && Evolves(world, old(Now()), Now())
      ensures forall p :: p in old(queue.order) ==>
        p in queue.order || WentUp(world, history, |old(history)|, p) || WasGone(world, history, |old(history)|, p)
      ensures AllFail(world) && AllOnDisk(world) ==> pushes <= old(pushes) + 12
      ensures forall bad :: FewBad(world, bad) ==> OnlyBadLeft(queue.order, bad)
    {
      hide Evolves, PushContract, OnlyLoses, Without, TriedLast, AllMovedBack, FailExactly, Distinct, NoProgress,
           NeverExpires,
           WentUp, WasGone, HasFailed, PushCount;
      var stalled := 0;
      ghost var start := Now();
      EvolvesRefl(world, start);
      EvolvesKeeps(world, start, start);
      FewAtStart(world, queue.order);
      while stalled < IsolationProbes
        invariant Valid() && Evolves(world, start, Now()) && 0 <= stalled <= IsolationProbes
        invariant AllFail(world) && AllOnDisk(world) ==> pushes <= old(pushes) + 4 * stalled
        invariant forall bad :: FewBad(world, bad) ==> StallBound(queue.order, bad, stalled)
        decreases |queue.order|, IsolationProbes - stalled
      {
        ghost var t := clock;
        var expired := ContextErr(start);
        if expired {
          ExpiredNow(world, t);
          EvolvesKeeps(world, start, Now());
          return;
        }
        OrderIsDistinct();
        label before:
        var batch, progress, kept, n := Step();
        EvolvesTransitive(world, start, old@before(Now()), Now());
        if batch == [] {
          break;
        }
        if progress {
          FewAtStart(world, queue.order);
          stalled := 0;
        } else {
          StallCounts(world, kept, n, Without(old@before(queue.order), Elements(batch) - Elements(kept)), queue.order);
          StallLowers(world, old@before(queue.order), queue.order, batch, kept, n, stalled);
          stalled := stalled + 1;
        }
      }
      EvolvesKeeps(world, start, Now());
      OnlyBadAtEnd(world, queue.order, stalled);
    }
  }

  lemma PrefixIsDistinct(s: seq<string>, prefix: seq<string>)
    requires Distinct(s) && prefix <= s
    ensures Distinct(prefix)
  {
  }

  // ---- what a failed batch looks like ----

  /** Each of the first n paths failed when pushed alone. */
  ghost predicate FailedAlone(w: World, batch: seq<string>, n: nat) {
    n <= |batch| && forall i :: 0 <= i < n ==> FailsAlone(w, batch[i])
  }

  ghost predicate FailsAlone(w: World, p: string) {
    exists t :: w.push(t, [p]).None?
  }

  ghost predicate NoProgress(w: World, batch: seq<string>, n: nat, before: seq<string>, after: seq<string>) {
    && FailedAlone(w, batch, n)
    && after == AllMovedBack(before, batch[..n])
    && (n == 0 || n == IsolationProbes || n == |batch|) && n <= IsolationProbes
    && (NeverExpires(w) ==> n > 0)
  }

  ghost predicate AllFail(w: World) {
    forall t, batch :: w.push(t, batch).None?
  }

  ghost predicate NeverExpires(w: World) {
    forall t :: !w.expired(t)
  }

  /** Pushed alone, exactly the paths in bad fail. */
  ghost predicate FailExactly(w: World, bad: set<string>) {
    forall t, p :: w.push(t, [p]).None? <==> p in bad
  }

  /** Everything in the batch but the bad paths has left the queue. */
  ghost predicate GoodOnesLeft(batch: seq<string>, bad: set<string>, order: seq<string>) {
    forall p :: p in batch && p !in bad ==> p !in order
  }

  lemma SettledMeets(w: World, t: nat, batch: seq<string>)
    requires PushContract(w) && batch != [] && w.push(t, batch).Some?
    ensures Meets(batch, Settled(batch, w.push(t, batch).value))
  {
    assert batch[0] in batch;
  }

  lemma BatchLeft(order: seq<string>, batch: seq<string>, removed: seq<string>)
    requires Meets(batch, removed) && forall p :: p in batch ==> p in order
    ensures |Without(order, Elements(removed))| < |order|
  {
    hide Without;
    WithoutHolds(order, Elements(removed));
    var p :| p in batch && p in removed;
    assert p in Elements(removed) && p in order;
  }

  /** After a successful push the whole batch has left the queue exactly if the result is no
      longer than the batch or contains all of it. */
  lemma WholeBatchLeavesIff(order: seq<string>, batch: seq<string>, up: seq<string>)
    requires forall p :: p in batch ==> p in order
    ensures (forall p :: p in batch ==> p !in Without(order, Elements(Settled(batch, up))))
      <==> |up| <= |batch| || Elements(batch) <= Elements(up)
  {
    hide Without;
    var removed := Settled(batch, up);
    WithoutHolds(order, Elements(removed));
    if p :| p in batch && p !in removed {
      assert p !in Elements(removed) && p in Elements(batch);
    } else {
      assert Elements(batch) <= Elements(removed);
    }
  }

  /** A push of "a", which is cached, and "b", which refers to "c" and "d". */
  const SomeCached := World((t, batch) => Some(if batch == ["a", "b"] then ["b", "c", "d"] else batch),
      (t, p) => true, t => false)

  /** Every push of that world succeeds, and yet "a" stays in the queue. */
  lemma CachedPathStays()
    ensures PushContract(SomeCached) && FailExactly(SomeCached, {}) && NeverExpires(SomeCached)
    ensures var batch := ["a", "b"]; var up := SomeCached.push(0, batch);
      up.Some? && Without(batch, Elements(Settled(batch, up.value))) == ["a"]
  {
    var batch := ["a", "b"];
    assert "b" in batch && "b" in ["b", "c", "d"];
    assert Meets(batch, ["b", "c", "d"]);
    var gone := Elements(["b", "c", "d"]);
    assert batch[..1] == ["a"] && ["a"][..0] == [];
    assert Without([], gone) == [] && Without(["a"], gone) == ["a"];
  }

  lemma NothingMoved(order: seq<string>, batch: seq<string>)
    ensures AllMovedBack(order, batch[..0]) == order
  {
  }

  lemma AloneMoved(order: seq<string>, batch: seq<string>)
    requires |batch| == 1
    ensures AllMovedBack(order, batch[..1]) == MovedBack(order, batch[0])
  {
    assert batch[..1][..0] == [];
  }

  lemma AloneIsBad(w: World, batch: seq<string>, t: nat)
    requires |batch| == 1 && w.push(t, batch).None?
    ensures FailedAlone(w, batch, 1)
    ensures forall bad :: FailExactly(w, bad) ==> batch[0] in bad
  {
    assert batch == [batch[0]];
    assert FailsAlone(w, batch[0]);
  }

  lemma MovedBackHolds(s: seq<string>, p: string)
    ensures |MovedBack(s, p)| <= |s| && forall q :: q in MovedBack(s, p) <==> q in s
  {
    WithoutHolds(s, {p});
  }

  lemma MovedOneMore(s: seq<string>, batch: seq<string>, i: nat)
    requires i < |batch|
    ensures AllMovedBack(s, batch[..i + 1]) == MovedBack(AllMovedBack(s, batch[..i]), batch[i])
  {
    assert batch[..i + 1][..i] == batch[..i];
  }

  lemma GoodOneMore(w: World, batch: seq<string>, i: nat, before: seq<string>, after: seq<string>)
    requires i < |batch| && batch[i] !in after && forall q :: q in after ==> q in before
    requires forall bad :: FailExactly(w, bad) ==> GoodOnesLeft(batch[..i], bad, before)
    ensures forall bad :: FailExactly(w, bad) ==> GoodOnesLeft(batch[..i + 1], bad, after)
  {
    hide FailExactly;
    assert batch[..i + 1] == batch[..i] + [batch[i]];
  }

  lemma BadOneMore(w: World, batch: seq<string>, i: nat, t: nat, before: seq<string>, after: seq<string>)
    requires i < |batch| && w.push(t, [batch[i]]).None? && forall q :: q in after ==> q in before
    requires forall bad :: FailExactly(w, bad) ==> GoodOnesLeft(batch[..i], bad, before)
    ensures forall bad :: FailExactly(w, bad) ==> GoodOnesLeft(batch[..i + 1], bad, after)
    ensures FailedAlone(w, batch, i) ==> FailedAlone(w, batch, i + 1)
  {
    assert batch[..i + 1] == batch[..i] + [batch[i]];
    assert FailsAlone(w, batch[i]);
  }

  /** After the first i paths of a batch on their own: `done` has left the queue, and as long
      as nothing has, every path failed and went to the back. */
  ghost predicate Probing(w: World, batch: seq<string>, i: nat, done: set<string>, failures: int, used: int,
                          before: seq<string>, order: seq<string>) {
    && i <= |batch| && |order| <= |before| && (done != {} ==> |order| < |before|)
    && (forall p :: p in batch && p !in done ==> p in order)
    && (forall p :: p in done ==> p !in order)
    && (done == {} ==> failures == used == i && i <= IsolationProbes && order == AllMovedBack(before, batch[..i])
                       && FailedAlone(w, batch, i))
    && (AllFail(w) ==> done == {})
    && (forall bad :: FailExactly(w, bad) ==> GoodOnesLeft(batch[..i], bad, order))
  }

  lemma ProbingStarts(w: World, batch: seq<string>, order: seq<string>)
    requires forall p :: p in batch ==> p in order
    ensures Probing(w, batch, 0, {}, 0, 0, order, order)
  {
    NothingMoved(order, batch);
  }

  lemma SkipKeepsProbing(w: World, batch: seq<string>, i: nat, done: set<string>, failures: int, used: int,
                         before: seq<string>, order: seq<string>)
    requires i < |batch| && Probing(w, batch, i, done, failures, used, before, order) && batch[i] in done
    ensures Probing(w, batch, i + 1, done, failures, used, before, order)
  {
    hide FailExactly, GoodOnesLeft, AllFail;
    GoodOneMore(w, batch, i, order, order);
  }

  lemma FailureKeepsProbing(w: World, batch: seq<string>, i: nat, done: set<string>, failures: int, used: int,
                            before: seq<string>, mid: seq<string>, order: seq<string>, t: nat)
    requires i < |batch| && Probing(w, batch, i, done, failures - 1, used - 1, before, mid)
    requires !(done == {} && failures - 1 >= IsolationProbes)
    requires w.push(t, [batch[i]]).None? && order == MovedBack(mid, batch[i])
    ensures Probing(w, batch, i + 1, done, failures, used, before, order)
  {
    hide FailExactly, GoodOnesLeft, AllFail, AllMovedBack, FailedAlone, MovedBack;
    MovedBackHolds(mid, batch[i]);
    MovedOneMore(before, batch, i);
    BadOneMore(w, batch, i, t, mid, order);
  }

  lemma SuccessKeepsProbing(w: World, batch: seq<string>, i: nat, done: set<string>, failures: int, used: int,
                            before: seq<string>, mid: seq<string>, order: seq<string>, removed: seq<string>, t: nat)
    requires i < |batch| && Probing(w, batch, i, done, failures, used - 1, before, mid) && batch[i] !in done
    requires w.push(t, [batch[i]]).Some? && batch[i] in removed && order == Without(mid, Elements(removed))
    ensures Probing(w, batch, i + 1, done + Elements(removed), failures, used, before, order)
  {
    hide FailExactly, GoodOnesLeft, AllMovedBack, FailedAlone, Without;
    WithoutHolds(mid, Elements(removed));
    assert batch[i] in batch && batch[i] in Elements(removed);
    GoodOneMore(w, batch, i, mid, order);
  }

  lemma ProbingGivesUp(w: World, batch: seq<string>, i: nat, failures: int, used: int, before: seq<string>,
                       order: seq<string>)
    requires i < |batch| && Probing(w, batch, i, {}, failures, used, before, order) && failures >= IsolationProbes
      && Distinct(batch)
    ensures NoProgress(w, batch, i, before, order) && used == i
    ensures forall bad :: FailExactly(w, bad) ==> |bad| >= IsolationProbes
  {
    hide FailExactly, AllMovedBack;
    ThreeBad(w, batch, i);
  }

  lemma ProbingEnds(w: World, batch: seq<string>, done: set<string>, failures: int, used: int, before: seq<string>,
                    order: seq<string>)
    requires |batch| > 1 && Probing(w, batch, |batch|, done, failures, used, before, order)
    ensures done != {} ==> |order| < |before|
    ensures done == {} ==> NoProgress(w, batch, |batch|, before, order) && used == |batch|
    ensures AllFail(w) ==> done == {}
    ensures forall bad :: FailExactly(w, bad) ==> GoodOnesLeft(batch, bad, order)
  {
    hide FailExactly, AllMovedBack;
    assert batch[..|batch|] == batch;
  }

  lemma BadAlone(w: World, bad: set<string>, p: string)
    requires FailExactly(w, bad) && FailsAlone(w, p)
    ensures p in bad
  {
  }

  lemma {:induction false} AllBad(w: World, batch: seq<string>, n: nat, bad: set<string>)
    requires FailedAlone(w, batch, n) && FailExactly(w, bad) && Distinct(batch)
    ensures Elements(batch[..n]) <= bad && |Elements(batch[..n])| == n
  {
    if n == 0 {
      assert Elements(batch[..0]) == {};
    } else {
      hide FailExactly, FailsAlone;
      AllBad(w, batch, n - 1, bad);
      BadAlone(w, bad, batch[n - 1]);
      assert batch[..n][..n - 1] == batch[..n - 1];
      LastIsFresh(batch[..n]);
    }
  }

  lemma ThreeBad(w: World, batch: seq<string>, n: nat)
    requires FailedAlone(w, batch, n) && n >= IsolationProbes && Distinct(batch)
    ensures forall bad :: FailExactly(w, bad) ==> |bad| >= IsolationProbes
  {
    forall bad | FailExactly(w, bad) ensures |bad| >= IsolationProbes {
      AllBad(w, batch, n, bad);
      SubsetIsNoLarger(Elements(batch[..n]), bad);
    }
  }

  // ---- one step ----

  ghost predicate AllOnDisk(w: World) {
    forall t, p :: w.onDisk(t, p)
  }

  ghost predicate KeptOf(batch: seq<string>, kept: seq<string>) {
    Distinct(kept) && forall p :: p in kept ==> p in batch
  }

  lemma NextPath(paths: seq<string>, i: nat, existing: seq<string>, gced: seq<string>)
    requires i < |paths| && Distinct(paths) && (forall p :: p in existing ==> p in paths[..i]) && Distinct(existing)
    requires Elements(gced) == Elements(paths[..i]) - Elements(existing)
    ensures paths[..i + 1] == paths[..i] + [paths[i]]
    ensures Distinct(existing + [paths[i]]) && forall p :: p in existing + [paths[i]] ==> p in paths[..i + 1]
    ensures Elements(gced) == Elements(paths[..i + 1]) - Elements(existing + [paths[i]])
    ensures Elements(gced + [paths[i]]) == Elements(paths[..i + 1]) - Elements(existing)
  {
    assert paths[..i + 1] == paths[..i] + [paths[i]];
    assert paths[i] !in paths[..i];
    forall j | 0 <= j < |existing| ensures existing[j] != paths[i] {
      assert existing[j] in existing;
    }
    assert Elements(paths[..i + 1]) == Elements(paths[..i]) + {paths[i]};
    assert Elements(existing + [paths[i]]) == Elements(existing) + {paths[i]};
    assert Elements(gced + [paths[i]]) == Elements(gced) + {paths[i]};
  }

  lemma GoneLeft(order: seq<string>, batch: seq<string>, existing: seq<string>, gced: seq<string>)
    requires batch <= order && batch != [] && KeptOf(batch, existing)
      && Elements(gced) == Elements(batch) - Elements(existing)
    ensures forall p :: p in existing ==> p in Without(order, Elements(gced))
    ensures |Without(order, Elements(gced))| <= |order|
    ensures existing == [] ==> |Without(order, Elements(gced))| < |order|
  {
    hide Without;
    WithoutHolds(order, Elements(gced));
    forall p | p in existing ensures p in Without(order, Elements(gced)) {
      assert p in batch && p in Elements(existing);
      var i :| 0 <= i < |batch| && batch[i] == p;
      assert order[i] == p;
    }
    if existing == [] {
      assert batch[0] in Elements(gced) && order[0] == batch[0];
    }
  }

  lemma StalledAreBad(w: World, kept: seq<string>, n: nat, before: seq<string>, after: seq<string>, progress: bool)
    requires Distinct(kept) && (!progress ==> NoProgress(w, kept, n, before, after))
    requires forall bad :: FailExactly(w, bad) && |bad| < IsolationProbes && NeverExpires(w) ==> !progress ==>
      n == |kept|
    ensures forall bad :: FailExactly(w, bad) && |bad| < IsolationProbes && NeverExpires(w) ==> !progress ==>
      Elements(kept) <= bad
  {
    forall bad | FailExactly(w, bad) && |bad| < IsolationProbes && NeverExpires(w) && !progress
      ensures Elements(kept) <= bad {
      AllBad(w, kept, n, bad);
      assert kept[..n] == kept;
    }
  }

  // ---- a few bad paths do not hold the others up ----

  ghost predicate FewBad(w: World, bad: set<string>) {
    FailExactly(w, bad) && |bad| < IsolationProbes && NeverExpires(w)
  }

  ghost predicate OnlyBadLeft(order: seq<string>, bad: set<string>) {
    forall p :: p in order ==> p in bad
  }

  /** Bad paths with a good one somewhere behind them. */
  ghost function BadAhead(order: seq<string>, bad: set<string>): set<string> {
    set b | b in bad && exists i, j :: 0 <= i < j < |order| && order[i] == b && order[j] !in bad
  }

  /** While good paths are left, too few bad ones are ahead to end the drain. */
  ghost predicate StallBound(order: seq<string>, bad: set<string>, stalled: nat) {
    OnlyBadLeft(order, bad) || stalled + |BadAhead(order, bad)| < IsolationProbes
  }

  lemma FewAtStart(w: World, order: seq<string>)
    ensures forall bad :: FewBad(w, bad) ==> StallBound(order, bad, 0)
  {
    hide FailExactly;
    forall bad | FewBad(w, bad) ensures StallBound(order, bad, 0) {
      SubsetIsNoLarger(BadAhead(order, bad), bad);
    }
  }

  lemma ExpiredNow(w: World, t: nat)
    requires w.expired(t)
    ensures forall bad :: !FewBad(w, bad)
  {
  }

  lemma StallCounts(w: World, kept: seq<string>, n: nat, before: seq<string>, after: seq<string>)
    requires NoProgress(w, kept, n, before, after)
    ensures n <= IsolationProbes && (NeverExpires(w) ==> kept != [])
  {
  }

  lemma {:induction false} AllMovedBackShape(s: seq<string>, ms: seq<string>)
    requires Distinct(ms) && forall p :: p in ms ==> p in s
    ensures AllMovedBack(s, ms) == Without(s, Elements(ms)) + ms
  {
    hide Without;
    if ms == [] {
      WithoutHolds(s, Elements(ms));
    } else {
      var init, p := ms[..|ms| - 1], ms[|ms| - 1];
      assert ms == init + [p] && forall q :: q in init ==> q in ms;
      LastIsFresh(ms);
      AllMovedBackShape(s, init);
      WithoutHolds(s, Elements(init));
      OneMoreMoved(s, init, p);
    }
  }

  lemma OneMoreMoved(s: seq<string>, init: seq<string>, p: string)
    requires p !in init && p in Without(s, Elements(init))
    ensures MovedBack(Without(s, Elements(init)) + init, p) == Without(s, Elements(init) + {p}) + (init + [p])
  {
    hide Without;
    var rest := Without(s, Elements(init));
    WithoutConcat(rest, init, {p});
    WithoutHolds(init, {p});
    WithoutTwice(s, Elements(init), {p});
    assert Without(rest, {p}) + init + [p] == Without(rest, {p}) + (init + [p]);
  }

  lemma LastIsFresh(ms: seq<string>)
    requires Distinct(ms) && ms != []
    ensures ms[|ms| - 1] !in ms[..|ms| - 1] && Elements(ms[..|ms| - 1]) + {ms[|ms| - 1]} == Elements(ms)
  {
    var init, p := ms[..|ms| - 1], ms[|ms| - 1];
    assert ms == init + [p];
    forall i | 0 <= i < |init| ensures init[i] != p { assert ms[i] == init[i]; }
  }

  lemma {:induction false} WithoutAll(s: seq<string>, gone: set<string>)
    requires forall p :: p in s ==> p in gone
    ensures Without(s, gone) == []
  {
    if s != [] {
      assert s[|s| - 1] in s && s == s[..|s| - 1] + [s[|s| - 1]];
      WithoutAll(s[..|s| - 1], gone);
    }
  }

  lemma RestIsApart(s: seq<string>, batch: seq<string>, p: string)
    requires Distinct(s) && batch <= s && p in s[|batch|..]
    ensures p !in batch
  {
    var rest := s[|batch|..];
    var i :| 0 <= i < |rest| && rest[i] == p;
    forall j | 0 <= j < |batch| ensures batch[j] != p { assert s[j] == batch[j] && s[|batch| + i] == p; }
  }

  lemma WithoutPrefix(s: seq<string>, batch: seq<string>)
    requires Distinct(s) && batch <= s
    ensures Without(s, Elements(batch)) == s[|batch|..]
  {
    hide Without, Distinct;
    var rest := s[|batch|..];
    assert s == batch + rest;
    WithoutConcat(batch, rest, Elements(batch));
    WithoutAll(batch, Elements(batch));
    forall p | p in rest ensures p !in Elements(batch) { RestIsApart(s, batch, p); }
    WithoutHolds(rest, Elements(batch));
  }

  /** A step without progress puts its bad paths behind the rest. */
  lemma StallShape(w: World, before: seq<string>, after: seq<string>, batch: seq<string>, kept: seq<string>)
    requires Distinct(before) && batch <= before && KeptOf(batch, kept)
    requires NoProgress(w, kept, |kept|, Without(before, Elements(batch) - Elements(kept)), after)
    ensures after == before[|batch|..] + kept
  {
    hide Without, AllMovedBack, FailedAlone, NeverExpires, Distinct;
    var gone := Elements(batch) - Elements(kept);
    assert kept[..|kept|] == kept;
    KeptStays(before, batch, kept, gone);
    AllMovedBackShape(Without(before, gone), kept);
    WithoutTwice(before, gone, Elements(kept));
    WithoutPrefix(before, batch);
  }

  lemma KeptStays(before: seq<string>, batch: seq<string>, kept: seq<string>, gone: set<string>)
    requires batch <= before && KeptOf(batch, kept) && gone == Elements(batch) - Elements(kept)
    ensures forall p :: p in kept ==> p in Without(before, gone)
    ensures gone + Elements(kept) == Elements(batch)
  {
    hide Without;
    WithoutHolds(before, gone);
    forall p | p in kept ensures p in Without(before, gone) {
      var i := InBatch(before, batch, p);
    }
  }

  lemma FewerAhead(before: seq<string>, after: seq<string>, batch: seq<string>, kept: seq<string>, bad: set<string>)
    requires Distinct(before) && batch <= before && KeptOf(batch, kept) && kept != [] && Elements(kept) <= bad
    requires after == before[|batch|..] + kept && !OnlyBadLeft(after, bad)
    ensures |BadAhead(after, bad)| < |BadAhead(before, bad)|
  {
    var rest := before[|batch|..];
    forall p | p in kept ensures p in bad { assert p in Elements(kept); }
    forall b | b in BadAhead(after, bad) ensures b in BadAhead(before, bad) && b != kept[0] {
      var i, j :| 0 <= i < j < |after| && after[i] == b && after[j] !in bad;
      GoodIsInRest(rest, kept, bad, j);
      assert before[|batch| + i] == b && before[|batch| + j] == after[j];
      var k := InBatch(before, batch, kept[0]);
    }
    var g :| g in after && g !in bad;
    assert g in rest;
    var j :| 0 <= j < |rest| && rest[j] == g;
    var k := InBatch(before, batch, kept[0]);
    assert before[k] == kept[0] && before[|batch| + j] == g;
    assert kept[0] in BadAhead(before, bad);
    SubsetIsNoLarger(BadAhead(after, bad), BadAhead(before, bad) - {kept[0]});
  }

  lemma GoodIsInRest(rest: seq<string>, kept: seq<string>, bad: set<string>, j: nat)
    requires j < |rest + kept| && (rest + kept)[j] !in bad && forall p :: p in kept ==> p in bad
    ensures j < |rest|
  {
  }

  lemma InBatch(before: seq<string>, batch: seq<string>, p: string) returns (k: nat)
    requires batch <= before && p in batch
    ensures k < |batch| && before[k] == p
  {
    k :| 0 <= k < |batch| && batch[k] == p;
  }

  lemma StallLowers(w: World, before: seq<string>, after: seq<string>, batch: seq<string>, kept: seq<string>, n: nat,
                    stalled: nat)
    requires Distinct(before) && batch <= before && KeptOf(batch, kept)
    requires NoProgress(w, kept, n, Without(before, Elements(batch) - Elements(kept)), after)
    requires forall bad :: FewBad(w, bad) ==> n == |kept| && Elements(kept) <= bad && StallBound(before, bad, stalled)
    ensures forall bad :: FewBad(w, bad) ==> StallBound(after, bad, stalled + 1)
  {
    hide FailExactly, BadAhead, Without, FailedAlone, AllMovedBack;
    forall bad | FewBad(w, bad) ensures StallBound(after, bad, stalled + 1) {
      StallShape(w, before, after, batch, kept);
      if !OnlyBadLeft(after, bad) {
        FewerAhead(before, after, batch, kept, bad);
        assert !OnlyBadLeft(before, bad);
      }
    }
  }

  lemma OnlyBadAtEnd(w: World, order: seq<string>, stalled: nat)
    requires order == []
      || (stalled >= IsolationProbes && forall bad :: FewBad(w, bad) ==> StallBound(order, bad, stalled))
    ensures forall bad :: FewBad(w, bad) ==> OnlyBadLeft(order, bad)
  {
  }
}
