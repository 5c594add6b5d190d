/** One step per SQL statement, per commit and per S3 call. A statement that
    needs a row another transaction holds is disabled until it is released. */
module GcSteps {
  import opened Wrappers
  import opened Reachability
  import opened GcState

  datatype Step =
    | Tick(to: Time)
    // a push
    | Insert(id: Id, pending: Pending)
    | Lookup(id: Id, verify: bool)
    | LateLookup(id: Id, offered: set<Key>)
    | DropPending(id: Id)
    | Put(id: Id, key: Key)
    | LatePut(id: Id, key: Key)
    | Adopt(id: Id, key: Key)
    | Register(key: Key, refs: set<Key>)
    | CommitClosure(id: Id)
    | CommitPush(id: Id)
    | Touch(keys: set<Key>)
    // pins
    | PinLock(conn: nat, name: string, closure: Key)
    | PinCommit(conn: nat)
    | PinAbort(conn: nat)
    | Unpin(name: string)
    // garbage collection
    | Expire(cutoff: Time, keep: set<Id>, source: map<Key, Id>)
    | PurgeScan(cutoff: Time)
    | PurgeLock(keys: set<Key>)
    | PurgeDelete
    | PurgeCommit
    | PurgeAbort
    | Mark
    | SweepScan(grace: Time, after: Key, cands: set<Key>)
    | SweepLock(keys: set<Key>)
    | SweepRecheck(doomed: set<Key>)
    | SweepRemoved(key: Key)
    | SweepFailed(key: Key, lost: bool)
    | SweepStat(key: Key, there: bool)
    | SweepCommit
    | SweepAbort

  // ---- pushes ----

  /** insertPendingClosure: one transaction writes the closure and all its objects. */
  predicate DoInsert(s: State, id: Id, p: Pending, t: State) {
    && id !in s.sessions && id !in s.pending && p.startedAt == s.now
    && t == s.(pending := s.pending[id := p], sessions := s.sessions[id := Inserted])
  }

  /** GetExistingObjects reads first_deleted_at; verify_s3 drops what the bucket lacks. */
  function Present(s: State, objs: map<Key, set<Key>>, verify: bool): set<Key> {
    set k | k in objs && k in s.rows && s.rows[k].firstDeletedAt.None? && (verify ==> k in s.bucket)
  }

  /** objectsToUpload: waits (FOR KEY SHARE) for a sweep that holds one of the rows. */
  predicate DoLookup(s: State, id: Id, verify: bool, t: State) {
    && id in s.pending && id in s.sessions && s.sessions[id].Inserted?
    && LockedRows(s) !! s.pending[id].objs.Keys
    && var objs := s.pending[id].objs;
       t == s.(sessions := s.sessions[id := Checked(objs.Keys - Present(s, objs, verify), {})])
  }

  /** The lookup of a push whose pending rows have expired meanwhile. */
  predicate DoLateLookup(s: State, id: Id, offered: set<Key>, t: State) {
    && id !in s.pending && id in s.sessions && s.sessions[id].Inserted?
    && t == s.(sessions := s.sessions[id := Checked(offered, {})])
  }

  /** The lookup failed: the server drops the rows, the client learns nothing. */
  predicate DoDropPending(s: State, id: Id, t: State) {
    && id in s.sessions && s.sessions[id].Inserted?
    && t == s.(pending := s.pending - {id})
  }

  predicate Offered(s: State, id: Id, k: Key) {
    id in s.sessions && s.sessions[id].Checked? && k in s.sessions[id].offered
  }

  function NoteUpload(s: State, id: Id, k: Key): map<Id, Session>
    requires Offered(s, id, k)
  {
    var c := s.sessions[id];
    s.sessions[id := c.(uploaded := c.uploaded + {k})]
  }

  predicate DoPut(s: State, id: Id, k: Key, t: State) {
    && Offered(s, id, k) && id in s.pending
    && t == s.(bucket := s.bucket + {k}, sessions := NoteUpload(s, id, k))
  }

  /** A PUT to a presigned URL that outlives the push's pending rows. */
  predicate DoLatePut(s: State, id: Id, k: Key, t: State) {
    && Offered(s, id, k) && id !in s.pending
    && t == s.(bucket := s.bucket + {k}, sessions := NoteUpload(s, id, k))
  }

  /** supersededByPeer: the client finds the object in the bucket and skips its own upload. */
  predicate DoAdopt(s: State, id: Id, k: Key, t: State) {
    && Offered(s, id, k) && id in s.pending && k in s.bucket
    && t == s.(sessions := NoteUpload(s, id, k))
  }

  /** Stat, then RegisterCompletedObject, while some pending row names the key.
      The refs come from a pending row, or are empty if that row is gone. */
  predicate DoRegister(s: State, k: Key, refs: set<Key>, t: State) {
    && k in s.bucket && IsPending(s, k) && k !in LockedRows(s)
    && (refs == {} || exists id :: id in s.pending && k in s.pending[id].objs && s.pending[id].objs[k] == refs)
    && t == s.(rows := s.rows[k := Row(Refs(RowRefs(s.rows), k) + refs, None, None)])
  }

  /** The client completes a push once it has uploaded everything it was offered. */
  predicate MayComplete(s: State, id: Id) {
    && id in s.pending && id in s.sessions && s.sessions[id].Checked?
    && s.sessions[id].offered <= s.sessions[id].uploaded
  }

  function Publish(s: State, id: Id, roots: set<Key>): State
    requires id in s.pending
  {
    var objs := s.pending[id].objs;
    s.(closures := map k | k in s.closures.Keys + roots :: if k in roots then s.now else s.closures[k],
       rows := Merge(s.rows, objs),
       pending := s.pending - {id},
       grants := s.grants + set r | r in roots :: Grant(r, objs))
  }

  /** No other transaction holds a row the commit writes. */
  predicate CommitUnblocked(s: State, id: Id, roots: set<Key>)
    requires id in s.pending
  {
    && LockedRows(s) !! s.pending[id].objs.Keys
    && LockedClosures(s) !! roots
    && forall r | r in roots :: !IsShared(s, r)
  }

  predicate DoCommitClosure(s: State, id: Id, t: State) {
    && MayComplete(s, id)
    && CommitUnblocked(s, id, {s.pending[id].key})
    && t == Publish(s, id, {s.pending[id].key})
  }

  predicate DoCommitPush(s: State, id: Id, t: State) {
    && MayComplete(s, id)
    && var roots := s.pending[id].roots + {s.pending[id].key};
    && CommitUnblocked(s, id, roots)
    && Missing(s.rows, s.pending[id]) == {}
    && t == Publish(s, id, roots)
  }

  /** TouchPresentClosures; which of the live rows are old enough does not matter here. */
  predicate DoTouch(s: State, keys: set<Key>, t: State) {
    && (forall k | k in keys :: k in s.closures && Live(s.rows, k) && k !in LockedClosures(s) && !IsShared(s, k))
    && t == s.(closures := map k | k in s.closures :: if k in keys then s.now else s.closures[k])
  }

  // ---- pins ----

  /** GetClosureForShare: a missing row is a 404, a locked one is waited for. */
  predicate DoPinLock(s: State, c: nat, name: string, k: Key, t: State) {
    && c !in s.pinTxs && k in s.closures && k !in LockedClosures(s)
    && t == s.(pinTxs := s.pinTxs[c := PinTx(name, k)])
  }

  predicate DoPinCommit(s: State, c: nat, t: State) {
    && c in s.pinTxs
    && t == s.(pins := s.pins[s.pinTxs[c].name := s.pinTxs[c].key], pinTxs := s.pinTxs - {c})
  }

  predicate DoPinAbort(s: State, c: nat, t: State) {
    c in s.pinTxs && t == s.(pinTxs := s.pinTxs - {c})
  }

  predicate DoUnpin(s: State, name: string, t: State) {
    name in s.pins && t == s.(pins := s.pins - {name})
  }

  // ---- garbage collection ----

  /** The pushes CleanupPendingClosures removes. */
  function Old(s: State, cutoff: Time, keep: set<Id>): set<Id> {
    set id | id in s.pending && s.pending[id].startedAt < cutoff && id !in keep
  }

  /** Keys of removed pushes that have no row yet. */
  function Orphaned(s: State, expired: set<Id>): set<Key> {
    set id, k | id in s.pending && id in expired && k in s.pending[id].objs && k !in s.rows :: k
  }

  /** CleanupPendingClosures. `keep` holds the closures whose upload could not be
      aborted and those a commit holds; `source` says whose refs a key listed by
      several removed pushes gets. */
  predicate DoExpire(s: State, cutoff: Time, keep: set<Id>, source: map<Key, Id>, t: State) {
    var expired := Old(s, cutoff, keep);
    && cutoff <= s.now
    && source.Keys == Orphaned(s, expired)
    && (forall k | k in source :: source[k] in expired && k in s.pending[source[k]].objs)
    && t == s.(
         rows := map k | k in s.rows.Keys + source.Keys ::
           if k in s.rows then s.rows[k]
           else Row(s.pending[source[k]].objs[k], Some(cutoff), Some(cutoff)),
         pending := s.pending - expired)
  }

  /** First half of LockOldClosures: its snapshot of closures and pins. */
  predicate DoPurgeScan(s: State, cutoff: Time, t: State) {
    && s.purge.NoPurge?
    && t == s.(purge := PurgeScanned(cutoff, set k | k in s.closures && s.closures[k] < cutoff && !IsPinned(s, k)))
  }

  /** Second half: FOR UPDATE SKIP LOCKED. The age is read again from the row, the
      pins are not: they are still those of the snapshot. */
  predicate DoPurgeLock(s: State, keys: set<Key>, t: State) {
    && s.purge.PurgeScanned? && keys <= s.purge.cands
    && (forall k | k in keys :: k in s.closures && s.closures[k] < s.purge.cutoff && !IsShared(s, k))
    && t == s.(purge := PurgeLocked(keys))
  }

  /** DeleteUnpinnedClosures, on a fresh snapshot of the pins. */
  predicate DoPurgeDelete(s: State, t: State) {
    && s.purge.PurgeLocked?
    && t == s.(purge := PurgeDeleting(s.purge.keys, set k | k in s.purge.keys && !IsPinned(s, k)))
  }

  predicate DoPurgeCommit(s: State, t: State) {
    && s.purge.PurgeDeleting?
    && t == s.(closures := s.closures - s.purge.dead,
               grants := (set g | g in s.grants && g.root !in s.purge.dead),
               purge := NoPurge,
               log := s.log + [Purged(map k | k in s.purge.dead && k in s.closures :: s.closures[k], s.now)])
  }

  predicate DoPurgeAbort(s: State, t: State) {
    t == s.(purge := NoPurge)
  }

  /** The rows MarkStaleObjects stamps. */
  ghost function Stale(s: State): set<Key> {
    set k | k in s.rows && k !in Kept(s) && !IsPending(s, k) && s.rows[k].deletedAt.None?
  }

  function Tombstone(r: Row, now: Time): Row {
    r.(deletedAt := Some(now), firstDeletedAt := if r.firstDeletedAt.None? then Some(now) else r.firstDeletedAt)
  }

  ghost predicate DoMark(s: State, t: State) {
    var stale := Stale(s);
    t == s.(rows := map k | k in s.rows :: if k in stale then Tombstone(s.rows[k], s.now) else s.rows[k])
  }

  /** The WHERE clause of LockObjectsReadyForDeletion, pending rows aside. */
  predicate Ripe(s: State, grace: Time, k: Key) {
    && k in s.rows && s.rows[k].deletedAt.Some? && s.rows[k].firstDeletedAt.Some?
    && s.rows[k].firstDeletedAt.value <= s.now - grace
  }

  /** First half of LockObjectsReadyForDeletion: what its snapshot selects.
      After-key, order and LIMIT only choose among these. */
  predicate DoSweepScan(s: State, grace: Time, cands: set<Key>, t: State) {
    && s.sweep.NoSweep?
    && (forall k | k in cands :: Ripe(s, grace, k) && !IsPending(s, k))
    && t == s.(sweep := Scanned(cands))
  }

  /** Second half: lock what is still a tombstone and nobody holds. */
  predicate DoSweepLock(s: State, keys: set<Key>, t: State) {
    && s.sweep.Scanned? && keys <= s.sweep.cands
    && (forall k | k in keys :: k in s.rows && s.rows[k].deletedAt.Some? && s.rows[k].firstDeletedAt.Some?)
    && t == s.(sweep := Locked(keys))
  }

  /** What GetKeysNotPending returns. */
  function Unpending(s: State, keys: set<Key>): set<Key> {
    set k | k in keys && k in s.rows && !IsPending(s, k)
  }

  /** GetKeysNotPending, on a fresh snapshot. */
  predicate DoSweepRecheck(s: State, doomed: set<Key>, t: State) {
    && s.sweep.Locked? && doomed == Unpending(s, s.sweep.keys)
    && t == s.(sweep := Deleting(s.sweep.keys, doomed, {}))
  }

  /** The bucket reports the key deleted or NoSuchKey. */
  predicate DoSweepRemoved(s: State, k: Key, t: State) {
    && s.sweep.Deleting? && k in s.sweep.doomed
    && t == s.(bucket := s.bucket - {k}, sweep := s.sweep.(gone := s.sweep.gone + {k}),
        log := s.log + [Erased(k, s.now)])
  }

  /** Any other answer; the object may be gone all the same. */
  predicate DoSweepFailed(s: State, k: Key, lost: bool, t: State) {
    && s.sweep.Deleting? && k in s.sweep.doomed
    && t == s.(bucket := if lost then s.bucket - {k} else s.bucket,
               log := if lost then s.log + [Erased(k, s.now)] else s.log)
  }

  /** A stat of a key the bucket did not answer for. If it is missing, it counts as removed. */
  predicate DoSweepStat(s: State, k: Key, there: bool, t: State) {
    && s.sweep.Deleting? && k in s.sweep.doomed && (there <==> k in s.bucket)
    && t == if there then s
            else s.(sweep := s.sweep.(gone := s.sweep.gone + {k}), log := s.log + [Erased(k, s.now)])
  }

  /** DeleteObjects and the commit. */
  predicate DoSweepCommit(s: State, t: State) {
    && s.sweep.Deleting?
    && t == s.(rows := s.rows - s.sweep.gone, sweep := NoSweep, log := s.log + [Forgotten(s.sweep.gone, s.now)])
  }

  /** Process death, a failed statement or a rollback: the locks are released. */
  predicate DoSweepAbort(s: State, t: State) {
    t == s.(sweep := NoSweep)
  }

  ghost predicate Next(s: State, step: Step, t: State) {
    match step
    case Tick(to) => s.now <= to && t == s.(now := to)
    case Insert(id, p) => DoInsert(s, id, p, t)
    case Lookup(id, verify) => DoLookup(s, id, verify, t)
    case LateLookup(id, offered) => DoLateLookup(s, id, offered, t)
    case DropPending(id) => DoDropPending(s, id, t)
    case Put(id, k) => DoPut(s, id, k, t)
    case LatePut(id, k) => DoLatePut(s, id, k, t)
    case Adopt(id, k) => DoAdopt(s, id, k, t)
    case Register(k, refs) => DoRegister(s, k, refs, t)
    case CommitClosure(id) => DoCommitClosure(s, id, t)
    case CommitPush(id) => DoCommitPush(s, id, t)
    case Touch(keys) => DoTouch(s, keys, t)
    case PinLock(c, name, k) => DoPinLock(s, c, name, k, t)
    case PinCommit(c) => DoPinCommit(s, c, t)
    case PinAbort(c) => DoPinAbort(s, c, t)
    case Unpin(name) => DoUnpin(s, name, t)
    case Expire(cutoff, keep, source) => DoExpire(s, cutoff, keep, source, t)
    case PurgeScan(cutoff) => DoPurgeScan(s, cutoff, t)
    case PurgeLock(keys) => DoPurgeLock(s, keys, t)
    case PurgeDelete => DoPurgeDelete(s, t)
    case PurgeCommit => DoPurgeCommit(s, t)
    case PurgeAbort => DoPurgeAbort(s, t)
    case Mark => DoMark(s, t)
    case SweepScan(grace, _, cands) => DoSweepScan(s, grace, cands, t)
    case SweepLock(keys) => DoSweepLock(s, keys, t)
    case SweepRecheck(doomed) => DoSweepRecheck(s, doomed, t)
    case SweepRemoved(k) => DoSweepRemoved(s, k, t)
    case SweepFailed(k, lost) => DoSweepFailed(s, k, lost, t)
    case SweepStat(k, there) => DoSweepStat(s, k, there, t)
    case SweepCommit => DoSweepCommit(s, t)
    case SweepAbort => DoSweepAbort(s, t)
  }

  /** An execution: the first state is empty, each next one follows by a step. */
  ghost predicate IsRun(states: seq<State>, steps: seq<Step>) {
    && |states| == |steps| + 1 && states[0] == Start
    && forall i :: 0 <= i < |steps| ==> Next(states[i], steps[i], states[i + 1])
  }
}
