/** The shared state of the push / garbage-collection protocol: the Postgres
    tables, the bucket, and the transactions that are in flight on them. */
module GcState {
  import opened Wrappers
  import opened Reachability

  type Key = string
  type Id = nat
  type Time = int

  /** A row of `objects`; a tombstone has both stamps set. */
  datatype Row = Row(refs: set<Key>, deletedAt: Option<Time>, firstDeletedAt: Option<Time>)

  /** A row of `pending_closures` with its `pending_objects` rows (key to refs).
      `roots` is empty for POST /api/pending_closures. */
  datatype Pending = Pending(startedAt: Time, key: Key, roots: set<Key>, objs: map<Key, set<Key>>)

  /** What the push itself knows. `Inserted`: its rows are written but it has not
      yet decided what is present. `Checked`: the client was told what to upload. */
  datatype Session = Inserted | Checked(offered: set<Key>, uploaded: set<Key>)

  /** The sweep transaction. `keys` are row-locked; `doomed` passed the recheck;
      `gone` is what the bucket confirmed as removed. */
  datatype Sweep =
    | NoSweep
    | Scanned(cands: set<Key>)
    | Locked(keys: set<Key>)
    | Deleting(keys: set<Key>, doomed: set<Key>, gone: set<Key>)

  /** The closure-delete transaction. `keys` are the locked closure rows, `dead`
      those the second statement deletes. */
  datatype Purge =
    | NoPurge
    | PurgeScanned(cutoff: Time, cands: set<Key>)
    | PurgeLocked(keys: set<Key>)
    | PurgeDeleting(keys: set<Key>, dead: set<Key>)

  /** A pin request that holds the closure row FOR SHARE. */
  datatype PinTx = PinTx(name: string, key: Key)

  /** History of a commit: what the push listed when it published `root`. */
  datatype Grant = Grant(root: Key, objs: map<Key, set<Key>>)

  /** What garbage collections have done, in order: bytes taken out of the bucket or found
      missing, rows deleted by one commit, and closures deleted by one commit with the age
      each had. */
  datatype Event =
    | Erased(key: Key, at: Time)
    | Forgotten(keys: set<Key>, at: Time)
    | Purged(closures: map<Key, Time>, at: Time)

  datatype State = State(
    now: Time,
    rows: map<Key, Row>,
    pending: map<Id, Pending>,
    sessions: map<Id, Session>,
    closures: map<Key, Time>,
    pins: map<string, Key>,
    bucket: set<Key>,
    sweep: Sweep,
    purge: Purge,
    pinTxs: map<nat, PinTx>,
    grants: set<Grant>,
    log: seq<Event>)

  const Start := State(0, map[], map[], map[], map[], map[], {}, NoSweep, NoPurge, map[], {}, [])

  // ---- derived tables ----

  predicate Live(rows: map<Key, Row>, k: Key) {
    k in rows && rows[k].deletedAt.None?
  }

  predicate IsPending(s: State, k: Key) {
    exists id :: id in s.pending && k in s.pending[id].objs
  }

  /** Pending in a push that has already decided what is present. */
  predicate Relied(s: State, id: Id, k: Key) {
    id in s.pending && k in s.pending[id].objs && id in s.sessions && s.sessions[id].Checked?
  }

  predicate IsPinned(s: State, k: Key) {
    exists n :: n in s.pins && s.pins[n] == k
  }

  predicate IsShared(s: State, k: Key) {
    exists c :: c in s.pinTxs && s.pinTxs[c].key == k
  }

  function LockedRows(s: State): set<Key> {
    match s.sweep
    case Locked(keys) => keys
    case Deleting(keys, _, _) => keys
    case _ => {}
  }

  function LockedClosures(s: State): set<Key> {
    match s.purge
    case PurgeLocked(keys) => keys
    case PurgeDeleting(keys, _) => keys
    case _ => {}
  }

  function RowRefs(rows: map<Key, Row>): map<Key, set<Key>> {
    map k | k in rows :: rows[k].refs
  }

  /** What `closure_reach` of MarkStaleObjects computes: the closure keys that
      have a row, and everything their rows refer to, tombstones included. */
  ghost function Kept(s: State): set<Key> {
    Reach(RowRefs(s.rows), s.closures.Keys * s.rows.Keys)
  }

  /** What a committed push may count on: the listed objects that are reachable
      from the root through the listed refs. */
  ghost function Promised(g: Grant): set<Key> {
    Reach(g.objs, {g.root}) * g.objs.Keys
  }

  /** INSERT INTO objects ... ON CONFLICT DO UPDATE of commit_pending_closure,
      with the WHERE clause that leaves an up-to-date live row untouched. */
  function Merge(rows: map<Key, Row>, objs: map<Key, set<Key>>): map<Key, Row> {
    map k | k in rows.Keys + objs.Keys ::
      if k !in objs then rows[k]
      else if k !in rows then Row(objs[k], None, None)
      else if Live(rows, k) && objs[k] <= rows[k].refs then rows[k]
      else Row(rows[k].refs + objs[k], None, None)
  }

  /** The keys commit_push calls missing: named by the push, not listed by it,
      and without a live row. */
  function Missing(rows: map<Key, Row>, p: Pending): set<Key> {
    set k | k in p.roots + (set o, r | o in p.objs && r in p.objs[o] :: r) && k !in p.objs && !Live(rows, k)
  }
}
