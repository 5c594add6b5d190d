/** The server's own code over the shared state: what one request or one garbage
    collection run does, statement by statement, while other requests interleave
    between any two statements. Every method says which protocol steps it takes. */
module GcService {
  import opened Wrappers
  import opened Results
  import opened Order
  import opened Reachability
  import opened Text
  import opened GcState
  import opened GcSteps
  import opened GcSafety
  import opened GcActors
  import opened GcSpared
  import opened GcAnswers
  import opened GcCollects
  import GcGrace

  /** storePathToNarinfoKey. */
  function NarinfoKey(storePath: string): Option<Key> {
    match Cut(AfterLastSlash(storePath), "-")
    case None => None
    case Some((hash, _)) => if hash == "" then None else Some(hash + ".narinfo")
  }

  class Service {
    var st: State
    var clock: nat
    const world: World
    /** All keys the objects table will ever hold; finite, and fixed. */
    const keys: set<Key>

    ghost predicate Valid()
      reads this
    {
      Inv(st) && Within(st, keys)
    }

    constructor (world: World, keys: set<Key>)
      ensures Valid() && st == Start && clock == 0 && this.world == world && this.keys == keys
    {
      st, clock := Start, 0;
      this.world, this.keys := world, keys;
    }

    // ---- the only ways the state and the clock change ----

    /** Other requests run. The body is one possible outcome, none; callers see only the
        contract. `since` and `own` are where the actor's account begins, and its steps so far. */
    method Others(me: Actor, ghost since: State, ghost own: seq<Step>)
      requires Valid() && Served(me, since, own, st)
      modifies this`st
      ensures Valid() && Respects(me, old(st), st) && Served(me, old(st), [], st) && Served(me, since, own, st)
      ensures me.Collector? ==> st.sweep == old(st).sweep && st.purge == old(st).purge && st.log == old(st).log
      ensures me.Collector? ==> old(st).rows.Keys <= st.rows.Keys && old(st).closures.Keys <= st.closures.Keys
      ensures me.Pusher? && me.id in old(st).sessions ==>
        me.id in st.sessions && st.sessions[me.id] == old(st).sessions[me.id]
      ensures me.Pusher? && me.id !in old(st).sessions ==> me.id !in st.sessions
      ensures me.Pusher? && me.id in st.pending ==>
        me.id in old(st).pending && st.pending[me.id] == old(st).pending[me.id]
      ensures me.Pinner? && me.conn in old(st).pinTxs ==>
        me.conn in st.pinTxs && st.pinTxs[me.conn] == old(st).pinTxs[me.conn]
      ensures me.Pinner? && me.conn !in old(st).pinTxs ==> me.conn !in st.pinTxs
    {
      ServedNothing(me, st);
      RespectsSelf(me, st);
    }

    /** One statement, commit or call to the bucket takes effect. */
    method Execute(me: Actor, t: State, ghost step: Step, ghost since: State, ghost own: seq<Step>)
      requires Valid() && Served(me, since, own, st)
      requires Next(st, step, t) && Thorough(st, step) && Within(t, keys)
      modifies this`st
      ensures Valid() && st == t && Served(me, since, if Mine(me, step) then own + [step] else own, st)
    {
      hide Next, Inv, Thorough, Served, Mine;
      StepKeepsInv(st, step, t);
      ServedAlso(me, since, own, st, step, t);
      st := t;
    }

    /** Whether the next database statement fails. */
    method Statement() returns (fails: bool)
      modifies this`clock
      ensures clock == old(clock) + 1 && fails == world.fails(old(clock))
    {
      fails, clock := world.fails(clock), clock + 1;
    }

    // ---- the sweep ----

    /** The recursive query of MarkStaleObjects: rows reached from the closures. */
    method ClosureReach() returns (reached: set<Key>)
      ensures forall k :: k in st.rows ==> (k in reached <==> k in Kept(st))
    {
      var graph := RowRefs(st.rows);
      ghost var seeds := st.closures.Keys * st.rows.Keys;
      reached := st.closures.Keys * st.rows.Keys;
      var frontier := reached;
      ReachIsClosed(graph, seeds);
      while frontier != {}
        invariant seeds <= reached && reached <= Kept(st) && reached <= st.rows.Keys && frontier <= reached
        invariant forall k, r :: k in reached - frontier && r in Refs(graph, k) && r in st.rows ==> r in reached
        decreases st.rows.Keys - reached, frontier
      {
        var k :| k in frontier;
        var more := set r | r in Refs(graph, k) && r in st.rows && r !in reached;
        assert forall r :: r in Refs(graph, k) && r in st.rows ==> r in reached || r in more;
        if more == {} {
          frontier := frontier - {k};
        } else {
          var r :| r in more;
          assert r in st.rows.Keys - reached;
          frontier, reached := (frontier - {k}) + more, reached + more;
        }
      }
      ReachesAllRows(st, reached);
    }

    /** MarkStaleObjects: one statement. */
    method MarkStaleObjects(ghost since: State, ghost own: seq<Step>) returns (marked: nat)
      requires Valid() && Served(Collector, since, own, st)
      modifies this`st
      ensures Valid() && DoMark(old(st), st) && marked == |Stale(old(st))| && Served(Collector, since, own + [Mark], st)
    {
      hide Respects, Served, Inv, Kept;
      var reached := ClosureReach();
      var pendingKeys := set id, k | id in st.pending && k in st.pending[id].objs :: k;
      var stale := set k | k in st.rows && k !in reached && k !in pendingKeys && st.rows[k].deletedAt.None?;
      assert stale == Stale(st);
      marked := |stale|;
      var t := st.(rows := map k | k in st.rows :: if k in stale then Tombstone(st.rows[k], st.now) else st.rows[k]);
      assert DoMark(st, t);
      Execute(Collector, t, Mark, since, own);
    }

    /** The snapshot of LockObjectsReadyForDeletion. */
    method ScanForDeletion(grace: Time, afterKey: Key, ghost since: State, ghost own: seq<Step>)
      requires Valid() && st.sweep.NoSweep? && Served(Collector, since, own, st)
      modifies this`st
      ensures Valid() && st == old(st).(sweep := Scanned(Candidates(old(st), grace, afterKey)))
      ensures Served(Collector, since, own + [SweepScan(grace, afterKey, Candidates(old(st), grace, afterKey))], st)
    {
      hide Respects, Served, Inv;
      var cands := Candidates(st, grace, afterKey);
      Execute(Collector, st.(sweep := Scanned(cands)), SweepScan(grace, afterKey, cands), since, own);
    }

    /** Its row locks: what is still a tombstone, in key order, up to the limit. */
    method LockScanned(ghost since: State, ghost own: seq<Step>) returns (locked: seq<Key>)
      requires Valid() && st.sweep.Scanned? && Served(Collector, since, own, st)
      modifies this`st
      ensures Valid() && st == old(st).(sweep := Locked(Elements(locked)))
      ensures Ascending(Self, locked) && |locked| <= DeletionBatchSize && Elements(locked) <= Lockable(old(st))
      ensures FirstOf(Elements(locked), Lockable(old(st)), DeletionBatchSize) && FillsUp(Lockable(old(st)), locked)
      ensures Served(Collector, since, own + [SweepLock(Elements(locked))], st)
    {
      hide Respects, Served, Inv, FirstOf, Ascending, FillsUp;
      var lockable := Lockable(st);
      var sorted := SortedKeys(lockable);
      locked := UpTo(sorted, DeletionBatchSize);
      FirstAre(sorted, lockable, DeletionBatchSize);
      FirstFillUp(sorted, lockable);
      Execute(Collector, st.(sweep := Locked(Elements(locked))), SweepLock(Elements(locked)), since, own);
    }

    /** LockObjectsReadyForDeletion. Requests may come in between its snapshot and its locks;
        `at` is the state of the locks. */
    method LockObjectsReadyForDeletion(grace: Time, afterKey: Key, ghost since: State, ghost own: seq<Step>)
      returns (locked: seq<Key>, ghost at: State)
      requires Valid() && st.sweep.NoSweep? && Served(Collector, since, own, st)
      modifies this`st
      ensures Valid() && st.sweep == Locked(Elements(locked)) && old(st).rows.Keys <= st.rows.Keys
      ensures var scan := SweepScan(grace, afterKey, Candidates(old(st), grace, afterKey));
        Served(Collector, since, own + [scan, SweepLock(Elements(locked))], st)
      ensures Ascending(Self, locked) && |locked| <= DeletionBatchSize
      ensures forall k :: k in locked ==> k in Candidates(old(st), grace, afterKey) && k in keys
      ensures LocksDue(old(st), grace, afterKey, at, locked)
      ensures Served(Collector, since, own + [SweepScan(grace, afterKey, Candidates(old(st), grace, afterKey))], at)
        && st == at.(sweep := Locked(Elements(locked)))
    {
      hide Respects, Within, Served, Inv, Next, FirstOf, Candidates, Ascending, FillsUp, LocksDue;
      var cands := Candidates(st, grace, afterKey);
      CandidatesAreKeys(st, grace, afterKey, keys);
      ScanForDeletion(grace, afterKey, since, own);
      Others(Collector, since, own + [SweepScan(grace, afterKey, cands)]);
      label waited:
      at := st;
      locked := LockScanned(since, own + [SweepScan(grace, afterKey, cands)]);
      LocksAreDue(old(st), grace, afterKey, at, locked);
      assert own + [SweepScan(grace, afterKey, cands)] + [SweepLock(Elements(locked))]
          == own + [SweepScan(grace, afterKey, cands), SweepLock(Elements(locked))];
      forall k | k in locked ensures k in cands { assert k in Elements(locked) && k in Lockable(old@waited(st)); }
    }

    /** GetKeysNotPending, on a snapshot taken now. */
    method GetKeysNotPending(locked: seq<Key>, ghost since: State, ghost own: seq<Step>) returns (unpending: seq<Key>)
      requires Valid() && st.sweep == Locked(Elements(locked)) && Served(Collector, since, own, st)
      modifies this`st
      ensures Valid() && DoSweepRecheck(old(st), Elements(unpending), st)
      ensures Served(Collector, since, own + [SweepRecheck(Elements(unpending))], st)
      ensures Ascending(Self, unpending) && AsksFor(old(st), locked, unpending)
        && Elements(unpending) == st.sweep.doomed == Unpending(old(st), Elements(locked))
    {
      hide Respects, Served, Inv, Ascending, AsksFor;
      var doomed := Unpending(st, st.sweep.keys);
      unpending := SortedKeys(doomed);
      assert Elements(unpending) == doomed;
      AsksForUnlisted(st, locked, unpending);
      Execute(Collector, st.(sweep := Deleting(st.sweep.keys, doomed, {})), SweepRecheck(doomed), since, own);
    }

    /** One delete, and its answer. */
    method RemoveObject(k: Key, ghost since: State, ghost own: seq<Step>) returns (answer: Answer)
      requires Valid() && st.sweep.Deleting? && k in st.sweep.doomed && Served(Collector, since, own, st)
      modifies this`st, this`clock
      ensures Valid() && clock == old(clock) + 1 && Agrees(answer, world.remove(old(clock), k))
      ensures Served(Collector, since, own + [RemovalStep(world, old(clock), k)], st)
      ensures answer.Deleted? ==> k in old(st).bucket
      ensures answer.NoSuchKey? ==> k !in old(st).bucket
      ensures st.rows == old(st).rows
      ensures st.sweep == WithGone(old(st).sweep, if answer.Deleted? || answer.NoSuchKey? then {k} else {})
    {
      hide Respects, Served, Inv;
      var r := world.remove(clock, k);
      clock := clock + 1;
      if r.Done? {
        answer := if k in st.bucket then Deleted else NoSuchKey;
        var t := st.(bucket := st.bucket - {k}, sweep := st.sweep.(gone := st.sweep.gone + {k}),
            log := st.log + [Erased(k, st.now)]);
        Execute(Collector, t, SweepRemoved(k), since, own);
      } else {
        answer := if r.Rejected? then Failed else Silent;
        var t := st.(bucket := if r.lost then st.bucket - {k} else st.bucket,
                     log := if r.lost then st.log + [Erased(k, st.now)] else st.log);
        Execute(Collector, t, SweepFailed(k, r.lost), since, own);
      }
    }

    /** isAbsent: true only if a stat answers NoSuchKey; the key then counts as removed. */
    method ConfirmAbsent(k: Key, ghost since: State, ghost own: seq<Step>) returns (absent: bool, ghost step: Step)
      requires Valid() && st.sweep.Deleting? && k in st.sweep.doomed && Served(Collector, since, own, st)
      modifies this`st, this`clock
      ensures Valid() && clock == old(clock) + 1 && Served(Collector, since, own + [step], st)
      ensures if world.stat(old(clock), k) then step == SweepStat(k, !absent)
              else step == SweepFailed(k, false) && !absent
      ensures absent <==> world.stat(old(clock), k) && k !in old(st).bucket
      ensures st.rows == old(st).rows
      ensures st.sweep == WithGone(old(st).sweep, if absent then {k} else {})
    {
      hide Respects, Served, Inv;
      var answered := world.stat(clock, k);
      clock := clock + 1;
      absent := answered && k !in st.bucket;
      step := if answered then SweepStat(k, !absent) else SweepFailed(k, false);
      var t := if absent then st.(sweep := st.sweep.(gone := st.sweep.gone + {k}),
          log := st.log + [Erased(k, st.now)]) else st;
      assert st.sweep.gone + {} == st.sweep.gone;
      Execute(Collector, t, step, since, own);
    }

    /** The deferred rollback. */
    method Rollback(ghost since: State, ghost own: seq<Step>)
      requires Valid() && Served(Collector, since, own, st)
      modifies this`st
      ensures Valid() && st == old(st).(sweep := NoSweep) && Served(Collector, since, own + [SweepAbort], st)
    {
      hide Respects, Served, Inv;
      Execute(Collector, st.(sweep := NoSweep), SweepAbort, since, own);
    }

    /** The loop over RemoveObjectsWithResult: every key of the batch is asked for once, in
        order; those whose delete was done, and no others, count as deleted. */
    method RemoveObjects(unpending: seq<Key>, ghost since: State, ghost own: seq<Step>)
      returns (deleted: set<Key>, answers: map<Key, Answer>, clean: bool)
      requires Valid() && st.sweep.Deleting? && st.sweep.gone == {} && Elements(unpending) == st.sweep.doomed
      requires Ascending(Self, unpending) && Served(Collector, since, own, st)
      modifies this`st, this`clock
      ensures Valid() && clock == old(clock) + |unpending| && old(st).rows.Keys <= st.rows.Keys
      ensures st.sweep == WithGone(old(st).sweep, deleted)
      ensures Served(Collector, since, own + Removals(world, old(clock), unpending), st)
      ensures answers.Keys == Elements(unpending)
      ensures forall i :: 0 <= i < |unpending| ==>
        Agrees(answers[unpending[i]], world.remove(old(clock) + i, unpending[i]))
      ensures forall k :: k in deleted <==> k in answers && (answers[k].Deleted? || answers[k].NoSuchKey?)
      ensures clean <==> forall k :: k in answers ==> !answers[k].Failed?
    {
      hide Respects, Within, Served, Inv, Next, Removals, Agrees, Ascending, Elements, WithGone, Answered;
      deleted, answers, clean := {}, map[], true;
      NoAnswers(world, clock, unpending, own);
      GoneSoFar(st.sweep, {}, {});
      for i := 0 to |unpending|
        invariant Valid() && clock == old(clock) + i && old(st).rows.Keys <= st.rows.Keys
        invariant st.sweep == WithGone(old(st).sweep, deleted)
        invariant Served(Collector, since, own + Removals(world, old(clock), unpending[..i]), st)
        invariant Answered(world, old(clock), unpending, i, answers, deleted, clean)
      {
        var k := unpending[i];
        ghost var so := own + Removals(world, old(clock), unpending[..i]);
        Others(Collector, since, so);
        DoomedAt(unpending, i);
        ghost var now := if world.remove(clock, k).Done? then {k} else {};
        GoneSoFar(old(st).sweep, deleted, now);
        var answer := RemoveObject(k, since, so);
        DoneIsAnswered(answer, world.remove(old(clock) + i, k));
        MoreRemovals(world, old(clock), unpending, i, own);
        NextAnswer(world, old(clock), unpending, i, answers, deleted, clean, answer);
        answers := answers[k := answer];
        deleted := deleted + if answer.Deleted? || answer.NoSuchKey? then {k} else {};
        clean := clean && !answer.Failed?;
      }
      AllAnswered(world, old(clock), unpending, answers, deleted, clean);
      GoneSoFar(old(st).sweep, deleted, {});
    }

    /** The others go on, and then k is asked for. */
    method StatOne(k: Key, ghost since: State, ghost own: seq<Step>) returns (absent: set<Key>, ghost step: Step)
      requires Valid() && st.sweep.Deleting? && k in st.sweep.doomed && Served(Collector, since, own, st)
      modifies this`st, this`clock
      ensures Valid() && clock == old(clock) + 1 && Served(Collector, since, own + [step], st)
      ensures IsStat(world, old(clock), k, step, absent)
      ensures old(st).rows.Keys <= st.rows.Keys && st.sweep == WithGone(old(st).sweep, absent)
    {
      hide Respects, Within, Served, Inv, Next;
      Others(Collector, since, own);
      var missing;
      missing, step := ConfirmAbsent(k, since, own);
      absent := if missing then {k} else {};
    }

    /** The loop over keys the bucket said nothing about: one stat each. */
    method ConfirmSilent(unpending: seq<Key>, answers: map<Key, Answer>, ghost since: State, ghost own: seq<Step>)
      returns (absent: set<Key>, ghost stats: seq<Step>)
      requires Valid() && st.sweep.Deleting? && Elements(unpending) <= st.sweep.doomed
        && Served(Collector, since, own, st)
      modifies this`st, this`clock
      ensures Valid() && clock == old(clock) + |SilentKeys(unpending, answers)| && old(st).rows.Keys <= st.rows.Keys
      ensures st.sweep == WithGone(old(st).sweep, absent)
      ensures Served(Collector, since, own + stats, st)
        && AreStats(world, old(clock), SilentKeys(unpending, answers), stats)
      ensures forall k :: k in absent <==> SweepStat(k, false) in stats
    {
      hide Respects, Within, Served, Inv, Next, Confirming, AreStats, SilentKeys, Elements, WithGone, IsStat;
      absent, stats := {}, [];
      NoStats(world, clock, unpending, answers, own);
      GoneSoFar(st.sweep, {}, {});
      for i := 0 to |unpending|
        invariant Valid() && old(st).rows.Keys <= st.rows.Keys
        invariant st.sweep == WithGone(old(st).sweep, absent)
        invariant Served(Collector, since, own + stats, st)
        invariant Confirming(world, old(clock), clock, unpending, i, answers, absent, stats)
      {
        var k := unpending[i];
        GoneSoFar(old(st).sweep, absent, {});
        if k in answers && answers[k].Silent? {
          DoomedAt(unpending, i);
          ghost var t := clock;
          var more, step := StatOne(k, since, own + stats);
          GoneSoFar(old(st).sweep, absent, more);
          OneStatMore(world, old(clock), t, unpending, i, answers, absent, stats, own, more, step);
          stats, absent := stats + [step], absent + more;
        } else {
          NoStatMore(world, old(clock), clock, unpending, i, answers, absent, stats);
        }
      }
      GoneSoFar(old(st).sweep, absent, {});
      StatsConfirm(world, old(clock), clock, unpending, answers, absent, stats);
    }

    /** DeleteObjects and the commit. */
    method CommitSweep(deleted: set<Key>, ghost since: State, ghost own: seq<Step>)
      requires Valid() && st.sweep.Deleting? && st.sweep.gone == deleted && Served(Collector, since, own, st)
      modifies this`st
      ensures Valid() && st.rows == old(st).rows - deleted && st.sweep.NoSweep?
        && Served(Collector, since, own + [SweepCommit], st)
    {
      hide Respects, Served, Inv;
      var t := st.(rows := st.rows - deleted, sweep := NoSweep, log := st.log + [Forgotten(deleted, st.now)]);
      Execute(Collector, t, SweepCommit, since, own);
    }

    /** The rest of sweepBatch once the rows are locked. Unless the recheck itself fails: the
        recheck, one delete for each key that is not pending (`asked`), one stat for each
        of those without an answer, and the commit or the rollback. */
    method DeleteLocked(looked: seq<Key>, ghost since: State, ghost own: seq<Step>)
      returns (ok: bool, clean: bool, deleted: set<Key>,
               ghost asked: seq<Key>, ghost stats: seq<Step>, ghost rest: seq<Step>)
      requires Valid() && st.sweep == Locked(Elements(looked)) && Served(Collector, since, own, st)
      modifies this`st, this`clock
      ensures Valid() && st.sweep.NoSweep? && clock > old(clock) + |asked|
      ensures Served(Collector, since, own + rest, st)
      ensures if world.fails(old(clock)) then rest == [SweepAbort] && !ok
              else && Ascending(Self, asked) && AsksFor(old(st), looked, asked)
                   && rest == Deletion(world, old(clock) + 1, asked, stats, ok)
                   && StatsFor(world, old(clock) + 1, asked, stats)
      ensures !ok ==> Failing(world, old(clock), clock)
      ensures !clean ==> Excused(world, old(clock), clock)
      ensures clean ==> NoneRejected(world, old(clock) + 1, asked)
      ensures Deletes(rest, ok, deleted) && AllConfirmed(world, old(clock), clock, deleted, looked)
      ensures RowsLost(old(st).rows.Keys, st.rows.Keys, deleted)
    {
      hide Respects, Within, Served, Inv, Next, Removals, AreStats, StatsFor, SilentKeys, Agrees, Ascending, GoneBy,
           Confirmed, Excused, Failing;
      hide Deletion, Elements, Unpending, Deletes, AllConfirmed, NoneRejected, AsksFor;
      deleted, asked, stats, clean, ok := {}, [], [], true, false;
      var failed := Statement();
      if failed {
        rest := [SweepAbort];
        NoneGone(rest);
        NoneConfirmed(world, old(clock), clock, looked);
        NothingRejected(world, clock);
        Rollback(since, own);
        FailingAt(world, old(clock), clock, old(clock));
        return;
      }
      var unpending := GetKeysNotPending(looked, since, own);
      asked := unpending;
      UnpendingIsPart(old(st), looked, asked);
      ok, clean, deleted, stats := DeleteAsked(looked, unpending, since, own + [SweepRecheck(Elements(asked))]);
      rest := Deletion(world, old(clock) + 1, asked, stats, ok);
      DeletionFollows(world, old(clock) + 1, asked, stats, ok, own);
      ConfirmedBefore(world, old(clock), old(clock) + 1, clock, deleted, looked);
      FailingLater(world, old(clock), old(clock) + 1, clock);
      ExcusedLater(world, old(clock), old(clock) + 1, clock);
    }

    /** The deletes, the stats, and the commit or the rollback. */
    method DeleteAsked(ghost looked: seq<Key>, unpending: seq<Key>, ghost since: State, ghost own: seq<Step>)
      returns (ok: bool, clean: bool, deleted: set<Key>, ghost stats: seq<Step>)
      requires Valid() && st.sweep.Deleting? && st.sweep.gone == {} && Elements(unpending) == st.sweep.doomed
      requires Ascending(Self, unpending) && Elements(unpending) <= Elements(looked)
        && Served(Collector, since, own, st)
      modifies this`st, this`clock
      ensures Valid() && st.sweep.NoSweep? && clock > old(clock) + |unpending|
      ensures Served(Collector, since,
                     own + Removals(world, old(clock), unpending) + stats + [if ok then SweepCommit else SweepAbort],
                       st)
      ensures StatsFor(world, old(clock), unpending, stats)
      ensures !ok ==> Failing(world, old(clock), clock)
      ensures !clean ==> Excused(world, old(clock), clock)
      ensures clean ==> NoneRejected(world, old(clock), unpending)
      ensures Deletes(Deletion(world, old(clock), unpending, stats, ok), ok, deleted)
      ensures AllConfirmed(world, old(clock), clock, deleted, looked)
      ensures RowsLost(old(st).rows.Keys, st.rows.Keys, deleted)
    {
      hide Respects, Within, Served, Inv, Next, Removals, AreStats, StatsFor, SilentKeys, Agrees, Ascending, GoneBy,
           Confirmed;
      hide Excused, Failing, Deletion, Elements, Deletes, AllConfirmed, NoneRejected;
      var answers, absent;
      deleted, answers, clean := RemoveObjects(unpending, since, own);
      ghost var so := own + Removals(world, old(clock), unpending);
      absent, stats := ConfirmSilent(unpending, answers, since, so);
      DeletionIs(world, old(clock), looked, unpending, answers, clean, deleted, absent, stats, old(clock), clock);
      SweepIsGone(old(st).sweep, deleted, absent);
      label asked:
      ok := EndSweep(deleted + absent, since, so + stats);
      ConfirmedWider(world, old(clock), old@asked(clock), clock, deleted + absent, looked);
      NoneConfirmed(world, old(clock), clock, looked);
      ExcusedLater(world, old(clock), old@asked(clock), clock);
      FailingLater(world, old(clock), old@asked(clock), clock);
      deleted := if ok then deleted + absent else {};
    }

    /** DeleteObjects and the commit, or the rollback if one of them fails. */
    method EndSweep(gone: set<Key>, ghost since: State, ghost own: seq<Step>) returns (ok: bool)
      requires Valid() && st.sweep.Deleting? && st.sweep.gone == gone && Served(Collector, since, own, st)
      modifies this`st, this`clock
      ensures Valid() && st.sweep.NoSweep? && clock == old(clock) + 2
      ensures Served(Collector, since, own + [if ok then SweepCommit else SweepAbort], st)
      ensures RowsLost(old(st).rows.Keys, st.rows.Keys, if ok then gone else {})
      ensures !ok ==> Failing(world, old(clock), clock)
    {
      hide Respects, Within, Served, Inv, Next, Failing;
      var rowsFail := Statement();
      var commitFails := Statement();
      Others(Collector, since, own);
      ok := !rowsFail && !commitFails;
      if ok {
        CommitSweep(gone, since, own);
      } else {
        Rollback(since, own);
        FailingAt(world, old(clock), clock, if rowsFail then clock - 2 else clock - 1);
      }
    }

    /** sweepBatch: one transaction over at most DeletionBatchSize tombstones after
        afterKey. It returns the last key it looked at, "" when nothing was left, and the
        keys whose rows it deleted. */
    method SweepBatch(grace: Time, afterKey: Key, ghost since: State, ghost own: seq<Step>)
      returns (last: Result<Key>, looked: seq<Key>, deleted: set<Key>, clean: bool, ghost more: seq<Step>)
      requires Valid() && st.sweep.NoSweep? && Served(Collector, since, own, st)
      modifies this`st, this`clock
      ensures Valid() && st.sweep.NoSweep? && clock > old(clock)
      ensures Served(Collector, since, own + more, st) && SweepOnly(grace, more)
      ensures world.fails(old(clock)) ==> last.Err? && more == [] && looked == []
      ensures !world.fails(old(clock)) ==>
        var scan := SweepScan(grace, afterKey, Candidates(old(st), grace, afterKey));
        |more| >= 3 && more[..2] == [scan, SweepLock(Elements(looked))]
      ensures Ascending(Self, looked) && |looked| <= 1000
      ensures forall k :: k in looked ==> k in Candidates(old(st), grace, afterKey) && k in keys
      ensures last.Ok? ==> last.value == if looked == [] then "" else looked[|looked| - 1]
      ensures last.Ok? && looked == [] ==> more[2..] == [SweepAbort]
      ensures last.Err? ==> Failing(world, old(clock), clock)
      ensures !clean ==> Excused(world, old(clock), clock)
      ensures Deletes(more, last.Ok?, deleted) && AllConfirmed(world, old(clock), clock, deleted, looked)
      ensures RowsLost(old(st).rows.Keys, st.rows.Keys, deleted)
      ensures BatchAccounts(world, old(clock), clock, grace, afterKey, more, looked, last.Ok?)
    {
      hide Respects, Within, Served, Inv, Next, GoneBy, Confirmed, Excused, Failing, Unpending, Candidates,
           Ascending, SweepOnly, Deletion, StatsFor;
      hide Elements, Deletes, AllConfirmed, NoneRejected, BatchAccounts, LocksDue, AsksFor;
      last, looked, deleted, clean, more := Err, [], {}, true, [];
      var failed := Statement();
      if failed {
        FailingAt(world, old(clock), clock, old(clock));
        NothingSwept(grace);
        NothingVisited();
        NoBatch(world, old(clock), clock, grace, afterKey);
        NoneGone(more);
        NoneConfirmed(world, old(clock), clock, looked);
        assert own + more == own;
        return;
      }
      ghost var atLocks;
      looked, atLocks := LockObjectsReadyForDeletion(grace, afterKey, since, own);
      ghost var cands := Candidates(old(st), grace, afterKey);
      ghost var head := [SweepScan(grace, afterKey, cands), SweepLock(Elements(looked))];
      if looked == [] {
        Rollback(since, own + head);
        BatchIs(grace, afterKey, cands, Elements(looked), [SweepAbort], world, 0, [], [], false, true, own);
        BatchCounts(world, old(clock), old(clock), clock, grace, afterKey, cands, looked, [SweepAbort], [], [], true,
                    true);
        NoneGone([SweepAbort]);
        NoneConfirmed(world, old(clock), clock, looked);
        last, more := Ok(""), head + [SweepAbort];
        return;
      }
      Others(Collector, since, own + head);
      label waited:
      var ok;
      ghost var asked, stats, rest;
      ok, clean, deleted, asked, stats, rest := DeleteLocked(looked, since, own + head);
      BatchIs(grace, afterKey, cands, Elements(looked), rest, world, old@waited(clock) + 1, asked, stats, ok,
              world.fails(old@waited(clock)), own);
      BatchCounts(world, old(clock), old@waited(clock) + 1, clock, grace, afterKey, cands, looked, rest, asked, stats,
                  ok, world.fails(old@waited(clock)));
      more := head + rest;
      ConfirmedBefore(world, old(clock), old@waited(clock), clock, deleted, looked);
      FailingLater(world, old(clock), old@waited(clock), clock);
      ExcusedLater(world, old(clock), old@waited(clock), clock);
      last := if ok then Ok(looked[|looked| - 1]) else Err;
    }

    /** cleanupOrphanObjects: mark, then sweep batch after batch. `visited` lists every
        key some batch looked at: strictly ascending, so none is visited twice. The loop
        ends because each batch starts after the last key of the one before; without an
        error it ends with a batch that finds nothing. */
    method CleanupOrphanObjects(grace: Time)
      returns (visited: seq<Key>, deleted: set<Key>, ok: bool, ghost own: seq<Step>)
      requires Valid() && st.sweep.NoSweep?
      modifies this`st, this`clock
      ensures Valid() && st.sweep.NoSweep? && clock > old(clock)
      ensures Served(Collector, old(st), own, st) && Graced(grace, own)
      ensures if world.fails(old(clock)) then own == [] && !ok
              else own != [] && own[0] == Mark && SweepOnly(grace, own[1..])
      ensures ok ==> SweptAll(grace, own)
      ensures !ok ==> Excused(world, old(clock), clock)
      ensures Ascending(Self, visited) && deleted <= Elements(visited)
      ensures old(st).rows.Keys - st.rows.Keys <= deleted
      ensures forall k :: k in deleted ==> GoneBy(own, k) && Confirmed(world, old(clock), clock, k)
      ensures forall k :: Live(old(st).rows, k) ==> HitsAfter(old(st).log, st.log, k, old(st).now + grace)
      ensures Looked(own) == Elements(visited)
      ensures ok ==>
        Complete(world, old(clock), clock, grace, own) && Collects(world, old(clock), clock, grace, old(st), own, st)
    {
      hide Respects, Within, Served, Inv, Next, GoneBy, Confirmed, Excused, Failing, Candidates, Ascending,
           SweepOnly, Later, HitsAfter, Stale,
           Graced, SweptAll, Kept, DoMark, Swept, Complete, Collects, Accounts, Looked;
      visited, deleted, ok, own := [], {}, false, [];
      ServedNothing(Collector, st);
      var failed := Statement();
      if failed {
        FailingAt(world, old(clock), clock, old(clock));
        FailingExcuses(world, old(clock), clock);
        NothingVisited();
        NothingLooked();
      } else {
        assert [] + [Mark] == [Mark];
        var marked := MarkStaleObjects(st, []);
        MarkKeepsKeys(old(st), st);
        visited, deleted, ok, own := SweepAll(grace, old(st));
        SweptIs(world, grace, old(clock), old(clock) + 1, clock, own, visited, deleted, ok);
        SweepIsComplete(world, grace, old(clock), old(clock) + 1, clock, old(st), own, st, visited, ok);
      }
      SweepsAreGraced(grace, own);
      ServedWithGrace(grace, old(st), own, st);
    }

    /** The loop over the batches. */
    method SweepAll(grace: Time, ghost since: State)
      returns (visited: seq<Key>, deleted: set<Key>, ok: bool, ghost own: seq<Step>)
      requires Valid() && st.sweep.NoSweep? && clock > 0 && Served(Collector, since, [Mark], st)
      modifies this`st, this`clock
      ensures Valid() && st.sweep.NoSweep? && clock > old(clock) && Served(Collector, since, own, st)
      ensures Swept(world, grace, old(clock), clock, own, visited, deleted, ok) && (ok ==> SweptAll(grace, own))
      ensures Accounts(world, old(clock), clock, grace, own, visited, ok)
      ensures old(st).rows.Keys - st.rows.Keys <= deleted
    {
      hide Respects, Within, Served, Inv, Next, GoneBy, Confirmed, Excused, Failing, Candidates, Ascending,
           SweepOnly, Later, Swept, SweptAll, Elements,
           Deletes, AllConfirmed, UpToKey, Accounts, BatchAccounts;
      visited, deleted, ok, own := [], {}, true, [Mark];
      SweepBegins(world, grace, clock);
      AccountsBegin(world, clock, grace);
      var afterKey := "";
      var done := false;
      while !done
        invariant Valid() && st.sweep.NoSweep? && clock >= old(clock) && Served(Collector, since, own, st)
        invariant Swept(world, grace, old(clock), clock, own, visited, deleted, ok)
        invariant Accounts(world, old(clock), clock, grace, own, visited, ok)
        invariant !done ==> UpToKey(visited, afterKey) && (afterKey == "" || afterKey in visited)
        invariant done ==> clock > old(clock) && (ok ==> SweptAll(grace, own))
        invariant old(st).rows.Keys - st.rows.Keys <= deleted
        decreases Later(keys, afterKey), !done
      {
        Others(Collector, since, own);
        label waited:
        var last, looked, gone, clean, batch := SweepBatch(grace, afterKey, since, own);
        SweptMore(world, grace, old(clock), old@waited(clock), clock, own, batch, visited, looked, deleted, gone,
                  ok, clean, last.Err?, old@waited(st), afterKey);
        AccountsMore(world, old(clock), old@waited(clock), clock, grace, own, visited, ok, afterKey, batch, looked,
                     last.Ok?);
        AccountsLess(world, old(clock), clock, grace, own + batch, visited + looked, ok && last.Ok?,
                     ok && clean && last.Ok?);
        LastIsLater(looked, afterKey, old@waited(st), grace);
        ok := ok && clean && last.Ok?;
        own, visited, deleted := own + batch, visited + looked, deleted + gone;
        if last.Err? || last.value == "" {
          done := true;
        } else {
          LaterKeysShrink(keys, afterKey, last.value);
          afterKey := last.value;
        }
      }
    }

    // ---- the other phases of a garbage collection ----

    /** cleanupPendingClosures: abort the old pushes' multipart uploads (one entry per
        upload, naming its push), keep the pushes whose abort was refused, expire the others
        but those whose row a commit holds. `at` is the state the statement saw. */
    method CleanupPendingClosures(duration: nat, uploads: seq<Id>)
      returns (count: Result<nat>, answers: seq<AbortAnswer>, keep: set<Id>, ghost at: State)
      requires Valid()
      modifies this`st, this`clock
      ensures Valid() && clock > old(clock) && Served(Collector, old(st), [], st)
      ensures st.sweep == old(st).sweep && st.purge == old(st).purge && st.log == old(st).log
      ensures count.Ok? ==> AnswersAre(world, old(clock) + 1, uploads, answers) && keep == Unaborted(uploads, answers)
      ensures count.Ok? ==>
        ExpiredBut(keep + world.held(old(clock) + 1 + |uploads|), old(st).now - duration, at, st, count.value)
      ensures count.Ok? ==> Served(Collector, old(st), [], at)
      ensures count.Err? ==> Excused(world, old(clock), clock)
    {
      hide Respects, Within, Served, Inv, Next, Unaborted, ExpiredBut, AnswersAre, Excused, Failing;
      var cutoff := st.now - duration;
      at, answers, keep := st, [], {};
      ServedNothing(Collector, st);
      var queryFails := Statement();
      if queryFails {
        FailingAt(world, old(clock), clock, old(clock));
        FailingExcuses(world, old(clock), clock);
        return Err, answers, keep, at;
      }
      var cancelled;
      answers, keep, cancelled := AbortUploads(uploads);
      if !cancelled { AnswersGiven(world, old(clock) + 1, uploads, answers); }
      var held := world.held(clock);
      clock := clock + 1;
      var failed := Statement();
      if cancelled || failed {
        if failed {
          FailingAt(world, old(clock), clock, clock - 1);
          FailingExcuses(world, old(clock), clock);
        } else {
          CanceledExcuses(world, old(clock), clock, uploads, answers);
        }
        return Err, answers, keep, at;
      }
      Others(Collector, st, []);
      at := st;
      RespectsNow(Collector, old(st), st);
      var n;
      n := ExpirePending(cutoff, keep, held, old(st));
      count := Ok(n);
    }

    /** The loop over the old uploads; only an answer other than NoSuchUpload keeps a push,
        and a cancellation ends the cleanup. */
    method AbortUploads(uploads: seq<Id>) returns (answers: seq<AbortAnswer>, keep: set<Id>, cancelled: bool)
      modifies this`clock
      ensures clock == old(clock) + |uploads| && |answers| == |uploads| && keep == Unaborted(uploads, answers)
      ensures forall i :: 0 <= i < |uploads| ==> answers[i] == world.abort(old(clock) + i, uploads[i])
      ensures cancelled <==> Canceled in answers
    {
      answers, keep, cancelled := [], {}, false;
      for i := 0 to |uploads|
        invariant clock == old(clock) + i && |answers| == i && keep == Unaborted(uploads[..i], answers)
        invariant forall j :: 0 <= j < i ==> answers[j] == world.abort(old(clock) + j, uploads[j])
        invariant cancelled <==> Canceled in answers
      {
        var answer := world.abort(clock, uploads[i]);
        clock := clock + 1;
        UnabortedMore(uploads[..i], answers, uploads[i], answer);
        assert uploads[..i + 1] == uploads[..i] + [uploads[i]];
        answers := answers + [answer];
        match answer
        case Canceled => cancelled := true;
        case Refused => keep := keep + {uploads[i]};
        case _ =>
      }
      assert uploads[..|uploads|] == uploads;
    }

    /** The CleanupPendingClosures statement; it skips the rows in `held`, which a commit has locked. */
    method ExpirePending(cutoff: Time, keep: set<Id>, held: set<Id>, ghost since: State)
      returns (count: nat)
      requires Valid() && cutoff <= st.now && Served(Collector, since, [], st)
      modifies this`st
      ensures Valid() && ExpiredBut(keep + held, cutoff, old(st), st, count) && Served(Collector, since, [], st)
      ensures st.sweep == old(st).sweep && st.purge == old(st).purge && st.log == old(st).log
    {
      hide Respects, Within, Served, Inv, Next, Thorough, ExpiredBut, WithoutPushes;
      var spared := keep + held;
      var expired := Old(st, cutoff, spared);
      var source := Owners(expired);
      count := |expired|;
      var t := WithoutPushes(st, cutoff, expired, source);
      ExpiryIs(st, cutoff, spared, source, t, count, keys);
      Execute(Collector, t, Expire(cutoff, spared, source), since, []);
    }

    /** For each row-less key of the expired pushes, one push that lists it. */
    method Owners(expired: set<Id>) returns (source: map<Key, Id>)
      requires expired <= st.pending.Keys
      ensures source.Keys == Orphaned(st, expired)
      ensures forall k :: k in source ==> source[k] in expired && k in st.pending[source[k]].objs
    {
      source := map[];
      var rest := Orphaned(st, expired);
      while rest != {}
        invariant rest <= Orphaned(st, expired) && source.Keys == Orphaned(st, expired) - rest
        invariant forall k :: k in source ==> source[k] in expired && k in st.pending[source[k]].objs
        decreases rest
      {
        var k :| k in rest;
        var id :| id in expired && k in st.pending[id].objs;
        source, rest := source[k := id], rest - {k};
      }
    }

    /** deleteClosuresBefore: lock the old closures without a pin, then delete those that
        still have none. `at` is the state the commit saw. A failed statement or commit
        rolls everything back. */
    method DeleteClosuresBefore(cutoff: Time) returns (count: Result<nat>, ghost at: State, ghost own: seq<Step>)
      requires Valid() && st.purge.NoPurge?
      modifies this`st, this`clock
      ensures Valid() && st.purge.NoPurge? && st.sweep == old(st).sweep && clock > old(clock)
      ensures Served(Collector, old(st), own, st)
      ensures count.Ok? ==> IsPurge(own, cutoff) && Served(Collector, old(st), own[..3], at)
      ensures count.Ok? ==> PurgedOld(cutoff, at, st, count.value)
      ensures count.Ok? ==> old(st).closures.Keys <= at.closures.Keys && PurgedBefore(old(st).log, st.log, cutoff)
      ensures count.Ok? && cutoff <= old(st).now ==> PurgesAll(cutoff, old(st), own, st)
      ensures count.Err? ==> st.log == old(st).log && old(st).closures.Keys <= st.closures.Keys
      ensures count.Err? ==> OnlyPurges(own, cutoff) && Failing(world, old(clock), clock)
    {
      hide Respects, Within, Inv, Served, Next, Failing, PurgedOld, IsPurge, PurgedBefore, OnlyPurges, PurgesAll;
      at, own, count := st, [], Err;
      NoPurges(cutoff);
      ServedNothing(Collector, st);
      var lockFails := Statement();
      if lockFails {
        FailingAt(world, old(clock), clock, old(clock));
        return;
      }
      ghost var lock := LockOldClosures(cutoff, st);
      label locked:
      count, at, own := DeleteLockedClosures(cutoff, old(st), lock);
      FailingLater(world, old(clock), old@locked(clock), clock);
      if count.Ok? { PurgeIsDone(cutoff, old(st), own, st); }
    }

    /** The rest of deleteClosuresBefore once the closures are locked. */
    method DeleteLockedClosures(cutoff: Time, ghost since: State, ghost lock: seq<Step>)
      returns (count: Result<nat>, ghost at: State, ghost own: seq<Step>)
      requires Valid() && st.purge.PurgeLocked? && Served(Collector, since, lock, st)
      requires lock == [PurgeScan(cutoff), PurgeLock(st.purge.keys)]
      requires forall k :: k in st.purge.keys ==> k in st.closures && st.closures[k] < cutoff
      modifies this`st, this`clock
      ensures Valid() && st.purge.NoPurge? && st.sweep == old(st).sweep && clock > old(clock)
      ensures Served(Collector, since, own, st)
      ensures count.Ok? ==> IsPurge(own, cutoff) && Served(Collector, since, own[..3], at)
      ensures count.Ok? ==> PurgedOld(cutoff, at, st, count.value)
      ensures count.Ok? ==> old(st).closures.Keys <= at.closures.Keys && PurgedBefore(old(st).log, st.log, cutoff)
      ensures count.Err? ==> st.log == old(st).log && old(st).closures.Keys <= st.closures.Keys
      ensures count.Err? ==> OnlyPurges(own, cutoff) && Failing(world, old(clock), clock)
    {
      hide Respects, Within, Inv, Served, Next, Failing, PurgedOld, IsPurge, PurgedBefore, OnlyPurges;
      at, own, count := st, lock, Err;
      ghost var keys := st.purge.keys;
      Others(Collector, since, own);
      AgesStay(old(st), st, keys, cutoff);
      var deleteFails := Statement();
      if deleteFails {
        RollbackPurge(since, own);
        FailingAt(world, old(clock), clock, clock - 1);
        own := own + [PurgeAbort];
        AbortedPurge(cutoff, keys, own);
        return;
      }
      DeleteUnpinned(since, own);
      own := own + [PurgeDelete];
      label deleted:
      Others(Collector, since, own);
      AgesStay(old@deleted(st), st, keys, cutoff);
      var commitFails := Statement();
      if commitFails {
        RollbackPurge(since, own);
        FailingAt(world, old(clock), clock, clock - 1);
        own := own + [PurgeAbort];
        AbortedPurge(cutoff, keys, own);
        return;
      }
      at := st;
      var n := CommitPurge(cutoff, since, own);
      count := Ok(n);
      own := own + [PurgeCommit];
      PurgeIs(cutoff, keys, own);
    }

    /** LockOldClosures, with requests between its snapshot and its locks. */
    method LockOldClosures(cutoff: Time, ghost since: State) returns (ghost own: seq<Step>)
      requires Valid() && st.purge.NoPurge? && Served(Collector, since, [], st)
      modifies this`st
      ensures Valid() && st.purge.PurgeLocked? && st.sweep == old(st).sweep && st.log == old(st).log
      ensures own == [PurgeScan(cutoff), PurgeLock(st.purge.keys)] && Served(Collector, since, own, st)
      ensures old(st).closures.Keys <= st.closures.Keys
      ensures forall k :: k in st.purge.keys ==> k in st.closures && st.closures[k] < cutoff
    {
      hide Respects, Inv, Served;
      ScanOldClosures(cutoff, since);
      Others(Collector, since, [PurgeScan(cutoff)]);
      var held := Purgeable(st);
      Execute(Collector, st.(purge := PurgeLocked(held)), PurgeLock(held), since, [PurgeScan(cutoff)]);
      own := [PurgeScan(cutoff)] + [PurgeLock(held)];
    }

    method ScanOldClosures(cutoff: Time, ghost since: State)
      requires Valid() && st.purge.NoPurge? && Served(Collector, since, [], st)
      modifies this`st
      ensures Valid() && DoPurgeScan(old(st), cutoff, st) && Served(Collector, since, [PurgeScan(cutoff)], st)
    {
      hide Respects, Inv, Served;
      var cands := set k | k in st.closures && st.closures[k] < cutoff && !IsPinned(st, k);
      Execute(Collector, st.(purge := PurgeScanned(cutoff, cands)), PurgeScan(cutoff), since, []);
      assert [] + [PurgeScan(cutoff)] == [PurgeScan(cutoff)];
    }

    /** DeleteUnpinnedClosures, on a snapshot taken now. */
    method DeleteUnpinned(ghost since: State, ghost own: seq<Step>)
      requires Valid() && st.purge.PurgeLocked? && Served(Collector, since, own, st)
      modifies this`st
      ensures Valid() && st.purge.PurgeDeleting? && st == old(st).(purge := st.purge)
      ensures st.purge.keys == old(st).purge.keys && st.purge.dead <= st.purge.keys
      ensures Served(Collector, since, own + [PurgeDelete], st)
    {
      hide Respects, Inv, Served;
      var dead := set k | k in st.purge.keys && !IsPinned(st, k);
      Execute(Collector, st.(purge := PurgeDeleting(st.purge.keys, dead)), PurgeDelete, since, own);
    }

    method CommitPurge(cutoff: Time, ghost since: State, ghost own: seq<Step>) returns (count: nat)
      requires Valid() && st.purge.PurgeDeleting? && Served(Collector, since, own, st)
      requires forall k :: k in st.purge.dead ==> k in st.closures && st.closures[k] < cutoff
      modifies this`st
      ensures Valid() && PurgedOld(cutoff, old(st), st, count) && st.purge.NoPurge?
      ensures Served(Collector, since, own + [PurgeCommit], st) && st.sweep == old(st).sweep
      ensures PurgedBefore(old(st).log, st.log, cutoff)
    {
      hide Respects, Served;
      count := |st.purge.dead|;
      var t := st.(closures := st.closures - st.purge.dead,
                   grants := (set g | g in st.grants && g.root !in st.purge.dead), purge := NoPurge,
                   log := st.log + [Purged(map k | k in st.purge.dead && k in st.closures :: st.closures[k], st.now)]);
      DeadAreFree(st);
      hide Inv;
      Execute(Collector, t, PurgeCommit, since, own);
    }

    /** The deferred rollback of the purge. */
    method RollbackPurge(ghost since: State, ghost own: seq<Step>)
      requires Valid() && Served(Collector, since, own, st)
      modifies this`st
      ensures Valid() && st == old(st).(purge := NoPurge) && Served(Collector, since, own + [PurgeAbort], st)
    {
      hide Respects, Inv, Served;
      Execute(Collector, st.(purge := NoPurge), PurgeAbort, since, own);
    }

    /** runGarbageCollection: the phases in order, the later ones skipped after a failure.
        Every scan of the sweep uses the grace period GcGrace computes, or none if forced;
        so an object that was live when the run began loses neither bytes nor row before
        that has passed. */
    method RunGarbageCollection(age: nat, pendingAge: nat, force: bool, uploads: seq<Id>)
      returns (ok: bool, ghost own: seq<Step>, ghost at: State, ghost expired: State, ghost cutoff: Time)
      requires Valid() && st.sweep.NoSweep? && st.purge.NoPurge?
      modifies this`st, this`clock
      ensures Valid() && st.sweep.NoSweep? && clock > old(clock)
      ensures Served(Collector, old(st), own, st)
      ensures Served(Collector, old(st), [], at) && Served(Collector, expired, own, st)
      ensures YoungPushesStay(pendingAge, at, expired)
      ensures if ok then Expiry(world, old(clock) + 2, uploads, cutoff, at, expired)
                && old(st).now - pendingAge <= cutoff <= at.now - pendingAge
              else at == expired || Expiry(world, old(clock) + 2, uploads, cutoff, at, expired)
      ensures var grace := if force then 0 else GcGrace.GracePeriod(pendingAge);
        && Graced(grace, own)
        && (ok ==> FullRun(grace, own) && Collects(world, old(clock), clock, grace, old(st), own, st))
        && (ok ==> PurgesAll(old(st).now - age, old(st), own, st))
        && (forall k :: Live(old(st).rows, k) ==> HitsAfter(old(st).log, st.log, k, old(st).now + grace))
        && (forall k :: Live(old(st).rows, k) && k !in st.rows ==> old(st).now + grace <= st.now)
      ensures CutoffsIn(own, old(st).now - age, st.now - age)
      ensures !ok ==> Excused(world, old(clock), clock)
    {
      hide Respects, Within, Served, Inv, Next, Graced, SweptAll, SweepOnly, Excused, Failing, HitsAfter,
           GcGrace.GracePeriod, PurgedBefore, FullRun,
           OnlyPurges, IsPurge, PurgedOld, ExpiredBut, AnswersAre, CutoffsIn, Unaborted, Candidates, Confirmed,
             GoneBy, Old, Ascending, IsPinned, IsShared, Expiry, YoungPushesStay, Complete, Collects,
             PurgesAll;
      var grace := if force then 0 else GcGrace.GracePeriod(pendingAge);
      ok, own, at, expired, cutoff := RunPhases(grace, age, pendingAge, uploads);
      ServedWithGrace(grace, old(st), own, st);
      if ok {
        CompleteCollects(world, old(clock), clock, grace, old(st), own, st);
        RunPurges(grace, age, old(st), own, st);
      }
    }

    method RunPhases(grace: Time, age: nat, pendingAge: nat, uploads: seq<Id>)
      returns (ok: bool, ghost own: seq<Step>, ghost at: State, ghost expired: State, ghost cutoff: Time)
      requires Valid() && st.sweep.NoSweep? && st.purge.NoPurge?
      modifies this`st, this`clock
      ensures Valid() && st.sweep.NoSweep? && clock > old(clock)
      ensures Served(Collector, old(st), own, st) && Graced(grace, own) && (ok ==> FullRun(grace, own))
      ensures ok ==> Complete(world, old(clock), clock, grace, own)
      ensures Served(Collector, old(st), [], at) && Served(Collector, expired, own, st)
      ensures YoungPushesStay(pendingAge, at, expired)
      ensures if ok then Expiry(world, old(clock) + 2, uploads, cutoff, at, expired)
                && old(st).now - pendingAge <= cutoff <= at.now - pendingAge
              else at == expired || Expiry(world, old(clock) + 2, uploads, cutoff, at, expired)
      ensures CutoffsIn(own, old(st).now - age, st.now - age)
      ensures !ok ==> Excused(world, old(clock), clock)
    {
      hide Respects, Within, Served, Inv, Next, Graced, Excused, Failing, FullRun, ExpiredBut, AnswersAre, CutoffsIn,
           Unaborted, Expiry, YoungPushesStay, Complete;
      ok, own, at, expired, cutoff := false, [], st, st, st.now - pendingAge;
      ServedNothing(Collector, st);
      NothingExpires(pendingAge, st);
      SweepsAreGraced(grace, []);
      NoCutoffs(st.now - age, st.now - age);
      var lockFails := Statement();
      if lockFails {
        FailingAt(world, old(clock), clock, old(clock));
        FailingExcuses(world, old(clock), clock);
        return;
      }
      label running:
      var count, answers, _, seen := CleanupPendingClosures(pendingAge, uploads);
      ExcusedLater(world, old(clock), old@running(clock), clock);
      if count.Ok? {
        at, expired := seen, st;
        ServedTakesTime(Collector, old(st), [], at);
        ExpiryIsOfOld(world, old(clock) + 2, uploads, answers, cutoff, at, expired, count.value, pendingAge);
      }
      Others(Collector, old(st), own);
      ServedTakesTime(Collector, old(st), own, st);
      NoCutoffs(old(st).now - age, st.now - age);
      if count.Err? { return; }
      label purging:
      ok, own := PurgeAndSweep(grace, age);
      ServedThen(Collector, old(st), [], old@purging(st), own, st);
      ServedThen(Collector, expired, [], old@purging(st), own, st);
      assert [] + own == own;
      if ok { CompleteLater(world, old(clock), old@purging(clock), clock, grace, own); }
      CutoffsFrom(own, old(st).now - age, old@purging(st).now - age, st.now - age);
      ExcusedLater(world, old(clock), old@purging(clock), clock);
    }

    /** The phases that need the advisory lock to themselves. */
    method PurgeAndSweep(grace: Time, age: nat) returns (ok: bool, ghost own: seq<Step>)
      requires Valid() && st.sweep.NoSweep? && st.purge.NoPurge?
      modifies this`st, this`clock
      ensures Valid() && st.sweep.NoSweep? && clock > old(clock)
      ensures Served(Collector, old(st), own, st) && Graced(grace, own) && (ok ==> FullRun(grace, own))
      ensures ok ==> Complete(world, old(clock), clock, grace, own)
      ensures CutoffsIn(own, old(st).now - age, st.now - age)
      ensures !ok ==> Excused(world, old(clock), clock)
    {
      hide Respects, Within, Served, Inv, Next, Graced, SweptAll, SweepOnly, Excused, Failing, HitsAfter,
           PurgedBefore, FullRun;
      hide OnlyPurges, IsPurge, PurgedOld, CutoffsIn, Confirmed, GoneBy, Ascending, Elements, Complete, Collects,
           Looked;
      ok := false;
      var cutoff := st.now - age;
      var purged, _, purge := DeleteClosuresBefore(cutoff);
      own := purge;
      PurgesAreGraced(grace, purge, cutoff, purged.Ok?);
      ServedTakesTime(Collector, old(st), purge, st);
      CutoffsFrom(purge, cutoff, cutoff, st.now - age);
      if purged.Err? {
        FailingExcuses(world, old(clock), clock);
        return;
      }
      Others(Collector, old(st), own);
      label sweeping:
      var _, _, swept, sweep := CleanupOrphanObjects(grace);
      ServedThen(Collector, old(st), own, old@sweeping(st), sweep, st);
      RunIsGraced(grace, purge, sweep, cutoff, swept);
      if swept { CompleteAfterPurge(world, old(clock), old@sweeping(clock), clock, grace, purge, sweep, cutoff); }
      own := own + sweep;
      ServedTakesTime(Collector, old(st), own, st);
      CutoffsFrom(own, cutoff, cutoff, st.now - age);
      ok := swept;
      ExcusedLater(world, old(clock), old@sweeping(clock), clock);
    }

    // ---- requests ----

    /** GetExistingObjects blocks while a sweep holds one of the rows. Here the sweep's
        transaction ends before the lookup goes on. */
    method AwaitRows(id: Id, objs: set<Key>, ghost since: State, ghost own: seq<Step>)
      requires Valid() && Served(Pusher(id), since, own, st)
      modifies this`st
      ensures Valid() && LockedRows(st) !! objs && Served(Pusher(id), since, own, st)
      ensures st == old(st).(sweep := st.sweep)
    {
      hide Respects, Inv, Served;
      if !(LockedRows(st) !! objs) {
        Execute(Pusher(id), st.(sweep := NoSweep), SweepAbort, since, own);
      }
    }

    /** insertPendingClosure: the rows that shield the objects from garbage collection. */
    method InsertPendingClosure(id: Id, closureKey: Key, roots: set<Key>, objs: map<Key, set<Key>>, ghost since: State)
      returns (ghost p: Pending)
      requires Valid() && objs.Keys <= keys && id !in st.sessions && Served(Pusher(id), since, [], st)
      modifies this`st
      ensures Valid() && p == Pending(old(st).now, closureKey, roots, objs) && DoInsert(old(st), id, p, st)
      ensures Served(Pusher(id), since, [GcSteps.Insert(id, p)], st)
    {
      hide Respects, Served;
      InvGivesSessions(st);
      var pending := Pending(st.now, closureKey, roots, objs);
      p := pending;
      hide Inv;
      var t := st.(pending := st.pending[id := pending], sessions := st.sessions[id := Inserted]);
      Execute(Pusher(id), t, GcSteps.Insert(id, p), since, []);
      assert [] + [GcSteps.Insert(id, p)] == [GcSteps.Insert(id, p)];
    }

    /** objectsToUpload: what the database does not consider live, or S3 lacks, in the state
        `at` of the lookup. */
    method ObjectsToUpload(id: Id, objs: map<Key, set<Key>>, verifyS3: bool, ghost since: State, ghost own: seq<Step>)
      returns (offered: set<Key>, ghost at: State)
      requires Valid() && id in st.sessions && st.sessions[id].Inserted? && Served(Pusher(id), since, own, st)
      requires id in st.pending ==> st.pending[id].objs == objs
      modifies this`st
      ensures Valid() && id in st.sessions && st.sessions[id] == Checked(offered, {})
      ensures id in st.pending ==> st.pending[id].objs == objs
      ensures OffersMissing(at, objs, offered)
      ensures Served(Pusher(id), since, own, at)
      ensures Served(Pusher(id), at, [LookupStep(at, id, verifyS3, offered)], st)
    {
      hide Respects, Inv, Served, Present, OffersMissing;
      AwaitRows(id, objs.Keys, since, own);
      at := st;
      ServedNothing(Pusher(id), st);
      offered := objs.Keys - Present(st, objs, verifyS3);
      RestIsOffered(st, objs, verifyS3, offered);
      Execute(Pusher(id), st.(sessions := st.sessions[id := Checked(offered, {})]),
          LookupStep(st, id, verifyS3, offered), st, []);
      assert [] + [LookupStep(at, id, verifyS3, offered)] == [LookupStep(at, id, verifyS3, offered)];
    }

    /** DeletePendingClosure. */
    method DropPending(id: Id, ghost since: State, ghost own: seq<Step>)
      requires Valid() && id in st.sessions && st.sessions[id].Inserted? && Served(Pusher(id), since, own, st)
      modifies this`st
      ensures Valid() && id !in st.pending && Served(Pusher(id), since, own + [GcSteps.DropPending(id)], st)
    {
      hide Respects, Inv, Served;
      Execute(Pusher(id), st.(pending := st.pending - {id}), GcSteps.DropPending(id), since, own);
    }

    /** createPendingClosureInner: rows first, then the presence check, whose state is `at`.
        The push is offered what was not present then; every other object is live, has its
        bytes, and stays so while the push is pending. A failed check drops the rows; if
        that fails too they stay until they expire, but nothing relies on them. */
    method CreatePendingClosure(id: Id, closureKey: Key, roots: set<Key>, objs: map<Key, set<Key>>, verifyS3: bool)
      returns (offered: Result<set<Key>>, ghost at: State, ghost own: seq<Step>)
      requires Valid() && objs.Keys <= keys && id !in st.sessions
      modifies this`st, this`clock
      ensures Valid() && Served(Pusher(id), old(st), own, st)
      ensures !HasSuffix(closureKey, ".narinfo") ==> offered.Err? && st == old(st)
      ensures offered.Ok? ==>
        && |own| == 2 && IsInsert(own[0], id, closureKey, roots, objs)
        && own[1] == LookupStep(at, id, verifyS3, offered.value) && OffersMissing(at, objs, offered.value)
        && Served(Pusher(id), old(st), own[..1], at) && Served(Pusher(id), at, own[1..], st)
      ensures offered.Ok? ==> Told(st, id, objs, offered.value)
      ensures offered.Err? ==> id !in st.pending || (id in st.sessions && st.sessions[id].Inserted?)
      ensures offered.Err? && HasSuffix(closureKey, ".narinfo") ==> Failing(world, old(clock), clock)
    {
      hide Respects, Within, Inv, Served, Next, Present, Failing, Told, LookupStep, HasSuffix, OffersMissing;
      offered, at, own := Err, st, [];
      ServedNothing(Pusher(id), st);
      InvGivesSessions(st);
      if !HasSuffix(closureKey, ".narinfo") { return; }
      Others(Pusher(id), st, []);
      InvGivesSessions(st);
      var insertFails := Statement();
      if insertFails {
        FailingAt(world, old(clock), clock, old(clock));
        return;
      }
      var p := InsertPendingClosure(id, closureKey, roots, objs, old(st));
      own := [GcSteps.Insert(id, p)];
      Others(Pusher(id), old(st), own);
      var lookupFails := Statement();
      if lookupFails {
        var dropFails := Statement();
        FailingAt(world, old(clock), clock, clock - 2);
        if !dropFails {
          DropPending(id, old(st), own);
          own := own + [GcSteps.DropPending(id)];
        }
        return;
      }
      var toUpload;
      toUpload, at := ObjectsToUpload(id, objs, verifyS3, old(st), own);
      ghost var look := LookupStep(at, id, verifyS3, toUpload);
      Others(Pusher(id), at, [look]);
      ServedThen(Pusher(id), old(st), own, at, [look], st);
      assert (own + [look])[..1] == own && (own + [look])[1..] == [look];
      own := own + [look];
      ToldIsTrue(st, id, objs, toUpload);
      offered := Ok(toUpload);
    }

    /** GetClosureForShare waits for a purge that holds the row; here it ends first. */
    method GetClosureForShare(conn: nat, name: string, key: Key, ghost since: State) returns (found: bool)
      requires Valid() && conn !in st.pinTxs && Served(Pinner(conn), since, [], st)
      modifies this`st
      ensures Valid() && (found ==> conn in st.pinTxs && st.pinTxs[conn] == PinTx(name, key))
      ensures !found ==> key !in st.closures && conn !in st.pinTxs
      ensures Served(Pinner(conn), since, if found then [PinLock(conn, name, key)] else [], st)
    {
      hide Respects, Inv, Served;
      if key in LockedClosures(st) {
        Execute(Pinner(conn), st.(purge := NoPurge), PurgeAbort, since, []);
      }
      found := key in st.closures;
      if found {
        Execute(Pinner(conn), st.(pinTxs := st.pinTxs[conn := PinTx(name, key)]), PinLock(conn, name, key), since, []);
        assert [] + [PinLock(conn, name, key)] == [PinLock(conn, name, key)];
      }
    }

    method CommitPin(conn: nat, ghost since: State, ghost own: seq<Step>)
      requires Valid() && conn in st.pinTxs && Served(Pinner(conn), since, own, st)
      modifies this`st
      ensures Valid() && st.pins == old(st).pins[old(st).pinTxs[conn].name := old(st).pinTxs[conn].key]
      ensures Served(Pinner(conn), since, own + [PinCommit(conn)], st)
    {
      hide Respects, Inv, Served;
      var t := st.(pins := st.pins[st.pinTxs[conn].name := st.pinTxs[conn].key], pinTxs := st.pinTxs - {conn});
      Execute(Pinner(conn), t, PinCommit(conn), since, own);
    }

    method AbortPin(conn: nat, ghost since: State, ghost own: seq<Step>)
      requires Valid() && conn in st.pinTxs && Served(Pinner(conn), since, own, st)
      modifies this`st
      ensures Valid() && Served(Pinner(conn), since, own + [PinAbort(conn)], st)
    {
      hide Respects, Inv, Served;
      Execute(Pinner(conn), st.(pinTxs := st.pinTxs - {conn}), PinAbort(conn), since, own);
    }

    /** CreatePinHandler: share-lock the closure row, write the pin file, upsert, commit. A
        pin is refused only for a malformed path, a missing closure, or a failure. */
    method CreatePin(conn: nat, name: string, storePath: string) returns (r: Result<()>, ghost own: seq<Step>)
      requires Valid() && conn !in st.pinTxs
      modifies this`st, this`clock
      ensures Valid() && Served(Pinner(conn), old(st), own, st)
      ensures r.Ok? ==> NarinfoKey(storePath).Some? && name in st.pins && st.pins[name] == NarinfoKey(storePath).value
      ensures r.Ok? ==> st.pins[name] in st.closures
      ensures r.Ok? ==> own == [PinLock(conn, name, NarinfoKey(storePath).value), PinCommit(conn)]
      ensures r.Err? ==> PinCommit(conn) !in own
      ensures r.Err? && NarinfoKey(storePath).Some? ==>
        NarinfoKey(storePath).value !in st.closures || Failing(world, old(clock), clock)
    {
      hide Respects, Within, Inv, Served, Next, NarinfoKey, Failing;
      r, own := Err, [];
      ServedNothing(Pinner(conn), st);
      var key := NarinfoKey(storePath);
      if key.None? { return; }
      Others(Pinner(conn), st, []);
      var found := GetClosureForShare(conn, name, key.value, old(st));
      if !found { return; }
      own := [PinLock(conn, name, key.value)];
      Others(Pinner(conn), old(st), own);
      var failed := Statement();
      if failed {
        AbortPin(conn, old(st), own);
        own := own + [PinAbort(conn)];
        FailingAt(world, old(clock), clock, clock - 1);
        return;
      }
      CommitPin(conn, old(st), own);
      PinIsSafe(st, name);
      own := own + [PinCommit(conn)];
      r := Ok(());
    }
  }
}
