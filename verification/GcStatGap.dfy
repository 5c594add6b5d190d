/** Why the stat and the registration have to be one step: a stat can go stale. */
module GcStatGap {
  import opened Wrappers
  import opened GcState
  import opened GcSteps

  const Listing: map<Key, set<Key>> := map["k" := {}]
  const FirstPush := Pending(0, "k", {}, Listing)
  const SecondPush := Pending(1, "k", {}, Listing)

  const Written := Start.(pending := map[1 := FirstPush], sessions := map[1 := Inserted])
  const Looked := Written.(sessions := Written.sessions[1 := Checked({"k"}, {})])
  const Uploaded := Looked.(bucket := {"k"}, sessions := Looked.sessions[1 := Checked({"k"}, {"k"})])
  const Aged := Uploaded.(now := 1)
  const Expired := Aged.(rows := map["k" := Row({}, Some(1), Some(1))], pending := map[])
  const Selected := Expired.(sweep := Scanned({"k"}))
  const Held := Selected.(sweep := Locked({"k"}))
  const Doomed := Held.(sweep := Deleting({"k"}, {"k"}, {}))
  const Removed := Doomed.(sweep := Deleting({"k"}, {"k"}, {"k"}), bucket := {}, log := [Erased("k", 1)])
  const Swept := Removed.(rows := map[], sweep := NoSweep, log := [Erased("k", 1), Forgotten({"k"}, 1)])
  const Again := Swept.(pending := map[2 := SecondPush], sessions := Swept.sessions[2 := Inserted])

  /** Some execution fragment without late PUTs leads from s to t. */
  ghost predicate LeadsTo(s: State, t: State) {
    exists states, steps :: IsFragment(states, steps) && states[0] == s && states[|steps|] == t
  }

  ghost predicate IsFragment(states: seq<State>, steps: seq<Step>) {
    && |states| == |steps| + 1
    && forall i :: 0 <= i < |steps| ==> Next(states[i], steps[i], states[i + 1]) && !steps[i].LatePut?
  }

  lemma OneMore(s: State, t: State, step: Step, u: State)
    requires LeadsTo(s, t) && Next(t, step, u) && !step.LatePut?
    ensures LeadsTo(s, u)
  {
    var states, steps :| IsFragment(states, steps) && states[0] == s && states[|steps|] == t;
    var more, moreSteps := states + [u], steps + [step];
    assert IsFragment(more, moreSteps) && more[0] == s && more[|moreSteps|] == u;
  }

  lemma Nowhere(s: State)
    ensures LeadsTo(s, s)
  {
    assert IsFragment([s], []) && [s][0] == s;
  }

  lemma KeyIsUploaded()
    ensures LeadsTo(Start, Uploaded)
  {
    Nowhere(Start);
    OneMore(Start, Start, Insert(1, FirstPush), Written);
    assert Listing.Keys - Present(Written, Listing, false) == {"k"};
    OneMore(Start, Written, Lookup(1, false), Looked);
    assert {} + {"k"} == {"k"} && Looked.bucket + {"k"} == {"k"};
    assert NoteUpload(Looked, 1, "k") == Uploaded.sessions;
    OneMore(Start, Looked, Put(1, "k"), Uploaded);
  }

  lemma PushExpires()
    ensures LeadsTo(Uploaded, Expired)
  {
    Nowhere(Uploaded);
    OneMore(Uploaded, Uploaded, Tick(1), Aged);
    var source: map<Key, Id> := map["k" := 1];
    assert Old(Aged, 1, {}) == {1};
    assert 1 in Aged.pending && Aged.pending[1].objs == Listing && "k" !in Aged.rows;
    assert "k" in Orphaned(Aged, {1});
    assert Orphaned(Aged, {1}) <= {"k"};
    assert Aged.pending - {1} == map[];
    OneMore(Uploaded, Aged, Expire(1, {}, source), Expired);
  }

  lemma KeyIsSelected()
    ensures DoSweepScan(Expired, 0, {"k"}, Selected)
    ensures DoSweepLock(Selected, {"k"}, Held)
  {
    assert Expired.rows["k"] == Row({}, Some(1), Some(1));
  }

  lemma KeyIsNotPending()
    ensures DoSweepRecheck(Held, {"k"}, Doomed)
  {
    assert Held.pending == map[] && "k" in Held.rows;
    assert Unpending(Held, {"k"}) == {"k"};
  }

  lemma KeyIsHeld()
    ensures LeadsTo(Expired, Held)
  {
    Nowhere(Expired);
    KeyIsSelected();
    OneMore(Expired, Expired, SweepScan(0, "", {"k"}), Selected);
    OneMore(Expired, Selected, SweepLock({"k"}), Held);
  }

  lemma KeyIsDoomed()
    ensures LeadsTo(Expired, Doomed)
  {
    KeyIsHeld();
    KeyIsNotPending();
    OneMore(Expired, Held, SweepRecheck({"k"}), Doomed);
  }

  lemma KeyIsRemoved()
    ensures DoSweepRemoved(Doomed, "k", Removed)
  {
    assert {} + {"k"} == {"k"} && Doomed.bucket - {"k"} == {} && Doomed.log == [];
  }

  lemma RowIsRemoved()
    ensures DoSweepCommit(Removed, Swept)
  {
    assert Removed.rows - {"k"} == map[];
    assert [Erased("k", 1)] + [Forgotten({"k"}, 1)] == [Erased("k", 1), Forgotten({"k"}, 1)];
  }

  lemma KeyIsSwept()
    ensures LeadsTo(Doomed, Swept)
  {
    Nowhere(Doomed);
    KeyIsRemoved();
    RowIsRemoved();
    hide DoSweepRemoved, DoSweepCommit, LeadsTo;
    OneMore(Doomed, Doomed, SweepRemoved("k"), Removed);
    OneMore(Doomed, Removed, SweepCommit, Swept);
  }

  lemma Joined(s: State, t: State, u: State)
    requires LeadsTo(s, t) && LeadsTo(t, u)
    ensures LeadsTo(s, u)
  {
    var a, m :| IsFragment(a, m) && a[0] == s && a[|m|] == t;
    var b, n :| IsFragment(b, n) && b[0] == t && b[|n|] == u;
    var c: seq<State>, o: seq<Step> := a + b[1..], m + n;
    forall i | 0 <= i < |o| ensures Next(c[i], o[i], c[i + 1]) && !o[i].LatePut? {
      if i >= |m| {
        assert c[i] == b[i - |m|] && c[i + 1] == b[i + 1 - |m|];
      }
    }
    assert IsFragment(c, o) && c[0] == s && c[|o|] == u;
  }

  /** There is an execution in which the key is in the bucket and pending when a stat
      could see it, and pending but gone when the registration runs: its push expired and
      was swept in between, and another push listed the key again. */
  lemma StatGoesStale()
    ensures LeadsTo(Start, Uploaded) && LeadsTo(Uploaded, Again)
    ensures "k" in Uploaded.bucket && IsPending(Uploaded, "k")
    ensures "k" !in Again.bucket && IsPending(Again, "k") && "k" !in LockedRows(Again)
  {
    KeyIsUploaded();
    PushExpires();
    KeyIsDoomed();
    KeyIsSwept();
    Joined(Uploaded, Expired, Doomed);
    Joined(Uploaded, Doomed, Swept);
    OneMore(Uploaded, Swept, Insert(2, SecondPush), Again);
    assert 1 in Uploaded.pending && "k" in Uploaded.pending[1].objs;
    assert 2 in Again.pending && "k" in Again.pending[2].objs;
  }
}
