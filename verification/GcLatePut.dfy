/** What a PUT that outlives its push can do: leave an object that no collection finds. */
module GcLatePut {
  import opened Wrappers
  import opened GcState
  import opened GcSteps
  import opened GcSafety
  import opened GcTheorems
  import opened GcStatGap

  const Landed := Swept.(bucket := {"k"})

  /** "k" was uploaded, its push expired and it was swept. A second PUT to the same URL
      lands now: an execution in which LatePutCoveredIff's condition fails. */
  lemma LatePutIsLost()
    ensures LeadsTo(Start, Swept) && DoLatePut(Swept, 1, "k", Landed)
    ensures Covered(Swept) && !Covered(Landed) && Lost(Landed, "k")
  {
    KeyIsUploaded();
    PushExpires();
    KeyIsDoomed();
    KeyIsSwept();
    Joined(Start, Uploaded, Expired);
    Joined(Start, Expired, Doomed);
    Joined(Start, Doomed, Swept);
    hide LeadsTo;
    assert {} + {"k"} == {"k"} && {"k"} + {"k"} == {"k"};
    assert NoteUpload(Swept, 1, "k") == Swept.sessions;
    assert "k" in Landed.bucket;
  }

  /** In the bucket, but with no row, pending or not, that names it. */
  ghost predicate Lost(s: State, k: Key) {
    k in s.bucket && k !in s.rows && !IsPending(s, k)
  }

  lemma PushesListNothingElse(s: State, step: Step, t: State)
    requires Next(s, step, t) && IsPushStep(step)
    ensures forall id :: id in t.pending ==>
      (id in s.pending && t.pending[id] == s.pending[id]) || (step.Insert? && t.pending[id] == step.pending)
  {
  }

  lemma PushesAddNoOtherRow(s: State, step: Step, t: State, k: Key)
    requires Lost(s, k) && Next(s, step, t) && IsPushStep(step)
    ensures k in t.bucket && k !in t.rows
  {
    if WritesRows(step) {
      WritingPushStep(s, step, t);
      WritersAddNoOtherRow(s, step, t, k);
    } else {
      QuietPushStep(s, step, t);
    }
    hide Next;
  }

  lemma WritersAddNoOtherRow(s: State, step: Step, t: State, k: Key)
    requires k !in s.rows && !IsPending(s, k) && Next(s, step, t) && WritesRows(step)
    ensures k !in t.rows
  {
    hide Missing, CommitUnblocked;
  }

  lemma PushesLeaveLost(s: State, step: Step, t: State, k: Key)
    requires Lost(s, k) && Next(s, step, t) && IsPushStep(step)
    requires step.Insert? ==> k !in step.pending.objs
    ensures Lost(t, k)
  {
    PushesListNothingElse(s, step, t);
    PushesAddNoOtherRow(s, step, t, k);
    hide Next, IsPushStep;
  }

  lemma ClosuresLeaveLost(s: State, step: Step, t: State, k: Key)
    requires Lost(s, k) && Next(s, step, t) && IsClosureStep(step)
    ensures Lost(t, k)
  {
    OtherStepsLeavePushes(s, step, t);
  }

  lemma SweepsLeaveLost(s: State, step: Step, t: State, k: Key)
    requires Inv(s) && Lost(s, k) && Next(s, step, t) && !IsPushStep(step) && !IsClosureStep(step)
    ensures Lost(t, k)
  {
    OtherStepsLeavePushes(s, step, t);
  }

  /** No step takes a lost object out of the bucket or gives it a row, until another push lists it. */
  lemma {:induction false} LostUntilListed(states: seq<State>, steps: seq<Step>, i: nat, n: nat, k: Key)
    requires IsRun(states, steps) && i <= n < |states| && Lost(states[i], k)
    requires forall j :: i <= j < n && steps[j].Insert? ==> k !in steps[j].pending.objs
    ensures Lost(states[n], k)
  {
    hide Next, Lost, Inv, IsPushStep, IsClosureStep;
    if i < n {
      LostUntilListed(states, steps, i, n - 1, k);
      var s, step, t := states[n - 1], steps[n - 1], states[n];
      assert Next(s, step, t);
      if IsPushStep(step) {
        PushesLeaveLost(s, step, t, k);
      } else if IsClosureStep(step) {
        ClosuresLeaveLost(s, step, t, k);
      } else {
        RunKeepsInv(states, steps, n - 1);
        SweepsLeaveLost(s, step, t, k);
      }
    }
  }
}
