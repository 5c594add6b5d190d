/** What a garbage collection with one grace period spares: in every trace, an object that was
    live at some moment is not touched before the grace period has passed. */
module GcSpared {
  import opened Wrappers
  import opened Reachability
  import opened GcState
  import opened GcSteps
  import opened GcSafety
  import opened GcActors

  /** Every scan uses this grace period, and nothing is marked once sweeping has begun. */
  predicate Graced(grace: Time, steps: seq<Step>) {
    && (forall i :: 0 <= i < |steps| && steps[i].SweepScan? ==> steps[i].grace == grace)
    && forall i, j :: 0 <= i < j < |steps| && steps[i].SweepScan? ==> !steps[j].Mark?
  }

  lemma {:induction false} OwnHolds(me: Actor, steps: seq<Step>, i: nat)
    requires i < |steps| && Mine(me, steps[i])
    ensures steps[i] in Own(me, steps)
  {
    hide Mine;
    if i < |steps| - 1 { OwnHolds(me, steps[..|steps| - 1], i); }
  }

  /** Only the collector scans and marks, so its own steps decide. */
  lemma {:induction false} GracedTrace(grace: Time, steps: seq<Step>)
    requires Graced(grace, Own(Collector, steps))
    ensures Graced(grace, steps)
  {
    if steps != [] {
      var init, last := steps[..|steps| - 1], steps[|steps| - 1];
      var own := Own(Collector, init);
      assert own == Own(Collector, steps)[..|own|];
      GracedTrace(grace, init);
      if last.Mark? {
        assert Own(Collector, steps)[|own|] == last;
        forall i | 0 <= i < |init| && init[i].SweepScan? ensures init[i] in own {
          OwnHolds(Collector, init, i);
        }
        assert forall j :: 0 <= j < |own| ==> own[j] == Own(Collector, steps)[j];
      } else if last.SweepScan? {
        assert Own(Collector, steps)[|own|] == last;
      }
    }
  }

  lemma {:induction false} SweepingHasScanned(states: seq<State>, steps: seq<Step>, n: nat)
    requires IsTrace(Collector, states, steps) && states[0].sweep.NoSweep? && n < |states|
    ensures states[n].sweep.NoSweep? || exists m :: 0 <= m < n && steps[m].SweepScan?
  {
    hide Next, Mine, Thorough;
    if n > 0 {
      SweepingHasScanned(states, steps, n - 1);
      if states[n - 1].sweep.NoSweep? && !steps[n - 1].SweepScan? {
        OnlyScanBegins(states[n - 1], steps[n - 1], states[n]);
      }
    }
  }

  lemma OnlyScanBegins(s: State, step: Step, t: State)
    requires Next(s, step, t) && s.sweep.NoSweep? && !step.SweepScan?
    ensures t.sweep.NoSweep?
  {
    if IsClosureStep(step) {
      ClosureStepLeaves(s, step, t);
    } else if WritesRows(step) {
      WritingPushStep(s, step, t);
    } else if IsPushStep(step) {
      QuietPushStep(s, step, t);
    } else {
      OnlyScanBeginsSweep(s, step, t);
    }
    hide Next;
  }

  lemma OnlyScanBeginsSweep(s: State, step: Step, t: State)
    requires Next(s, step, t) && s.sweep.NoSweep? && !step.SweepScan? && !IsPushStep(step) && !IsClosureStep(step)
    ensures t.sweep.NoSweep?
  {
  }

  /** The keys a sweep has selected. */
  function Picked(s: State): set<Key> {
    if s.sweep.Scanned? then s.sweep.cands else LockedRows(s)
  }

  /** The grace period since `since` has passed, or the object has its row still, was not
      marked before `since`, and no sweep can delete it. */
  ghost predicate Spared(s: State, k: Key, since: Time, grace: Time) {
    || since + grace <= s.now
    || (&& since <= s.now && k in s.rows
        && (s.rows[k].firstDeletedAt.Some? ==> since <= s.rows[k].firstDeletedAt.value)
        && (k in Picked(s) ==> Live(s.rows, k)))
  }

  lemma LiveIsSpared(s: State, k: Key, grace: Time)
    requires Inv(s) && Live(s.rows, k)
    ensures Spared(s, k, s.now, grace)
  {
  }

  /** A push's step leaves a row as it is, or revives it. */
  lemma WritingKeepsRow(s: State, step: Step, t: State, k: Key)
    requires Next(s, step, t) && WritesRows(step) && k in s.rows
    ensures k in t.rows && (t.rows[k] == s.rows[k] || (t.rows[k].deletedAt.None? && t.rows[k].firstDeletedAt.None?))
  {
    hide Missing, CommitUnblocked, MayComplete;
  }

  lemma PushStepSpares(s: State, step: Step, t: State, k: Key, since: Time, grace: Time)
    requires Next(s, step, t) && Spared(s, k, since, grace) && IsPushStep(step)
    ensures Spared(t, k, since, grace)
  {
    if WritesRows(step) {
      WritingPushStep(s, step, t);
      if k in s.rows { WritingKeepsRow(s, step, t, k); }
    } else {
      QuietPushStep(s, step, t);
    }
    hide Next;
  }

  lemma ClosureStepSpares(s: State, step: Step, t: State, k: Key, since: Time, grace: Time)
    requires Next(s, step, t) && Spared(s, k, since, grace) && IsClosureStep(step)
    ensures Spared(t, k, since, grace)
  {
    ClosureStepLeaves(s, step, t);
    hide Next;
  }

  lemma SweepStepSpares(s: State, step: Step, t: State, k: Key, since: Time, grace: Time)
    requires Inv(s) && Next(s, step, t) && Spared(s, k, since, grace) && !IsPushStep(step) && !IsClosureStep(step)
    requires (step.SweepScan? ==> step.grace == grace) && (step.Mark? ==> s.sweep.NoSweep?)
    ensures Spared(t, k, since, grace)
  {
    hide GrantsHold, PinsSafe, PushesBacked, LiveBacked, Stale;
  }

  lemma StepSpares(s: State, step: Step, t: State, k: Key, since: Time, grace: Time)
    requires Inv(s) && Next(s, step, t) && Spared(s, k, since, grace)
    requires (step.SweepScan? ==> step.grace == grace) && (step.Mark? ==> s.sweep.NoSweep?)
    ensures Spared(t, k, since, grace)
  {
    hide Inv, Next, Spared;
    if IsPushStep(step) {
      PushStepSpares(s, step, t, k, since, grace);
    } else if IsClosureStep(step) {
      ClosureStepSpares(s, step, t, k, since, grace);
    } else {
      SweepStepSpares(s, step, t, k, since, grace);
    }
  }

  /** The event takes the object's bytes or its row. */
  predicate Hits(e: Event, k: Key) {
    (e.Erased? && e.key == k) || (e.Forgotten? && k in e.keys)
  }

  /** From one log to a later one, nothing hits k before `time`. */
  ghost predicate HitsAfter(before: seq<Event>, after: seq<Event>, k: Key, time: Time) {
    before <= after && forall i :: |before| <= i < |after| && Hits(after[i], k) ==> time <= after[i].at
  }

  lemma HitsAfterMore(a: seq<Event>, b: seq<Event>, c: seq<Event>, k: Key, time: Time)
    requires HitsAfter(a, b, k, time) && HitsAfter(b, c, k, time)
    ensures HitsAfter(a, c, k, time)
  {
  }

  lemma OtherStepsLeaveLog(s: State, step: Step, t: State)
    requires Next(s, step, t) && (IsPushStep(step) || IsClosureStep(step)) && !step.PurgeCommit?
    ensures t.log == s.log
  {
    if IsClosureStep(step) {
      ClosureStepLeaves(s, step, t);
    } else if WritesRows(step) {
      WritingPushStep(s, step, t);
    } else {
      QuietPushStep(s, step, t);
    }
    hide Next;
  }

  lemma StepHitsAfter(s: State, step: Step, t: State, k: Key, since: Time, grace: Time)
    requires Inv(s) && Next(s, step, t) && Spared(s, k, since, grace)
    ensures HitsAfter(s.log, t.log, k, since + grace)
  {
    if (IsPushStep(step) || IsClosureStep(step)) && !step.PurgeCommit? {
      OtherStepsLeaveLog(s, step, t);
    } else {
      SweepHitsAfter(s, step, t, k, since, grace);
    }
  }

  lemma SweepHitsAfter(s: State, step: Step, t: State, k: Key, since: Time, grace: Time)
    requires Inv(s) && Next(s, step, t) && Spared(s, k, since, grace)
    requires !((IsPushStep(step) || IsClosureStep(step)) && !step.PurgeCommit?)
    ensures HitsAfter(s.log, t.log, k, since + grace)
  {
    hide GrantsHold, PinsSafe, PushesBacked, LiveBacked, StampsAgree, Stale;
  }

  /** An object that is live at state i is hit by no event before the grace period has passed,
      and has its row until then. */
  lemma {:induction false} GraceIsKept(grace: Time, states: seq<State>, steps: seq<Step>, i: nat, n: nat, k: Key)
    requires IsTrace(Collector, states, steps) && Inv(states[0]) && states[0].sweep.NoSweep?
    requires Graced(grace, Own(Collector, steps)) && i <= n < |states| && Live(states[i].rows, k)
    ensures Spared(states[n], k, states[i].now, grace)
    ensures HitsAfter(states[i].log, states[n].log, k, states[i].now + grace)
  {
    hide Inv, Next, Mine, Thorough, Spared, HitsAfter, Hits, Graced, Own;
    TraceKeepsInv(Collector, states, steps, i);
    if i == n {
      LiveIsSpared(states[i], k, grace);
      NoHits(states[i].log, k, states[i].now + grace);
    } else {
      GraceIsKept(grace, states, steps, i, n - 1, k);
      TraceKeepsInv(Collector, states, steps, n - 1);
      GracedAt(grace, states, steps, n - 1);
      StepSpares(states[n - 1], steps[n - 1], states[n], k, states[i].now, grace);
      StepHitsAfter(states[n - 1], steps[n - 1], states[n], k, states[i].now, grace);
      HitsAfterMore(states[i].log, states[n - 1].log, states[n].log, k, states[i].now + grace);
    }
  }

  lemma NoHits(log: seq<Event>, k: Key, time: Time)
    ensures HitsAfter(log, log, k, time)
  {
  }

  lemma GracedAt(grace: Time, states: seq<State>, steps: seq<Step>, n: nat)
    requires IsTrace(Collector, states, steps) && states[0].sweep.NoSweep? && Graced(grace, Own(Collector, steps))
      && n < |steps|
    ensures (steps[n].SweepScan? ==> steps[n].grace == grace) && (steps[n].Mark? ==> states[n].sweep.NoSweep?)
  {
    hide Next, Mine, Thorough, Own;
    GracedTrace(grace, steps);
    SweepingHasScanned(states, steps, n);
  }

  /** Row or bytes: an object that was live at i is there at n, or the grace period has passed. */
  lemma LiveUntilGrace(grace: Time, states: seq<State>, steps: seq<Step>, i: nat, n: nat, k: Key)
    requires IsTrace(Collector, states, steps) && Inv(states[0]) && states[0].sweep.NoSweep?
    requires Graced(grace, Own(Collector, steps)) && i <= n < |states| && Live(states[i].rows, k)
    ensures k !in states[n].rows ==> states[i].now + grace <= states[n].now
  {
    GraceIsKept(grace, states, steps, i, n, k);
  }

  /** The same, for whatever a collector has done from s to t. */
  lemma ServedWithGrace(grace: Time, s: State, own: seq<Step>, t: State)
    requires Served(Collector, s, own, t) && Inv(s) && s.sweep.NoSweep? && Graced(grace, own)
    ensures forall k :: Live(s.rows, k) ==> HitsAfter(s.log, t.log, k, s.now + grace)
    ensures forall k :: Live(s.rows, k) && k !in t.rows ==> s.now + grace <= t.now
  {
    hide Inv, Next, Mine, Thorough, HitsAfter, Graced, Own;
    var states, steps :| IsTrace(Collector, states, steps) && states[0] == s && states[|steps|] == t
      && Own(Collector, steps) == own;
    forall k | Live(s.rows, k)
      ensures HitsAfter(s.log, t.log, k, s.now + grace) && (k !in t.rows ==> s.now + grace <= t.now)
    {
      GraceIsKept(grace, states, steps, 0, |steps|, k);
    }
  }
}
