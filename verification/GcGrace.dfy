/** The grace period of a garbage collection: the pending age as the code converts it,
    and what the conversion costs. Times and durations count nanoseconds. */
module GcGrace {
  import opened Wrappers
  import opened Reachability
  import opened GcState
  import opened GcSteps
  import opened GcStatGap

  const Second: int := 1_000_000_000
  const TwoTo31: int := 0x8000_0000
  const TwoTo53: int := 0x20_0000_0000_0000

  /** The largest power of two up to n. Doubles from there to twice as much lie
      1 / 2^52 of it apart. */
  function Binade(n: nat): (b: nat)
    requires n > 0
    ensures b <= n < 2 * b
  {
    if n == 1 then 1 else 2 * Binade(n / 2)
  }

  /** Duration.Seconds adds the fraction to the whole seconds in float64. The sum is the
      next whole second if it is within half the distance of two doubles from it. */
  predicate RoundsUp(age: nat) {
    && age >= Second && age % Second > 0
    && (Second - age % Second) * TwoTo53 <= Second * Binade(age / Second)
  }

  function PowerOfTwo(k: nat): nat {
    if k == 0 then 1 else 2 * PowerOfTwo(k - 1)
  }

  lemma {:induction false} BinadeUpTo(n: nat, k: nat)
    requires n > 0
    ensures n < 2 * PowerOfTwo(k) ==> Binade(n) <= PowerOfTwo(k)
    ensures PowerOfTwo(k) <= n ==> PowerOfTwo(k) <= Binade(n)
  {
    if n > 1 && k > 0 { BinadeUpTo(n / 2, k - 1); }
  }

  /** A nanosecond short of a whole second is lost from 2^24 seconds on, about 194 days: the first
      binade whose doubles lie further apart than two nanoseconds. */
  lemma NanosecondIsLostIff(age: nat)
    requires age % 1_000_000_000 == 999_999_999
    ensures RoundsUp(age) <==> age / 1_000_000_000 >= 16_777_216
  {
    assert PowerOfTwo(8) == 256 && PowerOfTwo(16) == 65536;
    assert PowerOfTwo(23) == 8_388_608 && PowerOfTwo(24) == 16_777_216;
    if age >= Second {
      BinadeUpTo(age / Second, 23);
      BinadeUpTo(age / Second, 24);
    }
  }

  /** The whole seconds of that sum. */
  function WholeSeconds(age: nat): nat {
    age / Second + if RoundsUp(age) then 1 else 0
  }

  /** Conversion of whole seconds to int32; out of range it gives the least value, as on amd64. */
  function ToInt32(seconds: nat): int {
    if seconds < TwoTo31 then seconds else -TwoTo31
  }

  /** int32(pendingAge.Seconds()), times interval '1 second'. */
  function GracePeriod(age: nat): Time {
    ToInt32(WholeSeconds(age)) * Second
  }

  /** The grace period covers the pending age exactly if that is a whole number of seconds,
      or so long that its fraction is lost upwards, and fits an int32. */
  lemma GraceIsFullIff(age: nat)
    ensures GracePeriod(age) >= age
      <==> (age % 1_000_000_000 == 0 || RoundsUp(age)) && WholeSeconds(age) < 2_147_483_648
  {
    assert age == age / Second * Second + age % Second;
  }

  /** As long as it fits, it is less than a second short. */
  lemma GraceIsNearlyFull(age: nat)
    requires WholeSeconds(age) < 2_147_483_648
    ensures age - 1_000_000_000 < GracePeriod(age) < age + 1_000_000_000
  {
    assert age == age / Second * Second + age % Second;
  }

  /** Half a second is no grace at all, 1.9 seconds are one, and 600000 hours make every
      tombstone ripe at once. */
  lemma GraceOfSomeAges()
    ensures GracePeriod(Second / 2) == 0
    ensures GracePeriod(19 * Second / 10) == Second
    ensures GracePeriod(600_000 * 3600 * Second) == -2_147_483_648 * Second
  {
    var long := 600_000 * 3600 * Second;
    assert long / Second == 600_000 * 3600 && long % Second == 0;
    assert Binade(1) == 1;
    assert 19 * Second / 10 == 1_900_000_000;
  }

  // ---- an object that is swept too early ----

  const Registered := Uploaded.(rows := map["k" := Row({}, None, None)])
  const Ticked := Registered.(now := 1)
  /** Its push has expired: "k" is live, and nothing refers to it. */
  const Orphan := Ticked.(pending := map[])
  const Marked := Orphan.(rows := map["k" := Row({}, Some(1), Some(1))])

  /** The clock once "k" is ripe. */
  function RipeAt(grace: Time): Time {
    if grace > 0 then 1 + grace else 1
  }

  function Waited(grace: Time): State { Marked.(now := RipeAt(grace)) }
  function Picked(grace: Time): State { Waited(grace).(sweep := Scanned({"k"})) }
  function Taken(grace: Time): State { Waited(grace).(sweep := Locked({"k"})) }
  function Sentenced(grace: Time): State { Waited(grace).(sweep := Deleting({"k"}, {"k"}, {})) }
  function Removed(grace: Time): State {
    Waited(grace).(sweep := Deleting({"k"}, {"k"}, {"k"}), bucket := {}, log := [Erased("k", RipeAt(grace))])
  }
  function Gone(grace: Time): State {
    Waited(grace).(rows := map[], bucket := {}, log := [Erased("k", RipeAt(grace)), Forgotten({"k"}, RipeAt(grace))])
  }

  /** What a garbage collection does to "k" from the mark on. */
  function Collection(grace: Time): seq<Step> {
    [Mark, Tick(RipeAt(grace)), SweepScan(grace, "", {"k"}), SweepLock({"k"}), SweepRecheck({"k"}),
     SweepRemoved("k"), SweepCommit]
  }

  function Stages(grace: Time): seq<State> {
    [Orphan, Marked, Waited(grace), Picked(grace), Taken(grace), Sentenced(grace), Removed(grace), Gone(grace)]
  }

  lemma KeyIsOrphaned()
    ensures LeadsTo(Start, Orphan)
  {
    KeyIsUploaded();
    assert 1 in Uploaded.pending && "k" in Uploaded.pending[1].objs;
    assert IsPending(Uploaded, "k");
    assert Refs(RowRefs(Uploaded.rows), "k") + {} == {};
    OneMore(Start, Uploaded, Register("k", {}), Registered);
    OneMore(Start, Registered, Tick(1), Ticked);
    assert Old(Ticked, 1, {}) == {1};
    assert Orphaned(Ticked, {1}) == {};
    assert Ticked.pending - {1} == map[];
    assert Ticked.rows == map k | k in Ticked.rows.Keys :: Ticked.rows[k];
    OneMore(Start, Ticked, Expire(1, {}, map[]), Orphan);
  }

  lemma KeyIsMarked()
    ensures DoMark(Orphan, Marked)
  {
    var seeds := Orphan.closures.Keys * Orphan.rows.Keys;
    assert seeds == {};
    ReachIffPath(RowRefs(Orphan.rows), seeds, "k");
    assert "k" !in Kept(Orphan);
    assert Stale(Orphan) == {"k"};
  }

  lemma KeyIsPicked(grace: Time)
    ensures DoSweepScan(Waited(grace), grace, {"k"}, Picked(grace))
    ensures DoSweepLock(Picked(grace), {"k"}, Taken(grace))
  {
    assert Waited(grace).rows["k"] == Row({}, Some(1), Some(1));
  }

  lemma KeyIsSentenced(grace: Time)
    ensures DoSweepRecheck(Taken(grace), {"k"}, Sentenced(grace))
  {
    assert Unpending(Taken(grace), {"k"}) == {"k"};
  }

  lemma KeyIsErased(grace: Time)
    ensures DoSweepRemoved(Sentenced(grace), "k", Removed(grace))
    ensures DoSweepCommit(Removed(grace), Gone(grace))
  {
    assert {} + {"k"} == {"k"} && Waited(grace).bucket - {"k"} == {};
    assert Waited(grace).rows - {"k"} == map[] && Waited(grace).log == [];
    var e, f := Erased("k", RipeAt(grace)), Forgotten({"k"}, RipeAt(grace));
    assert [e] + [f] == [e, f];
  }

  /** A mark, a wait, and a sweep of one key are steps of one execution. */
  lemma CollectionSteps(s: seq<State>, grace: Time, to: Time, keys: set<Key>, k: Key)
    requires |s| == 8
    requires DoMark(s[0], s[1]) && Next(s[1], Tick(to), s[2])
    requires DoSweepScan(s[2], grace, keys, s[3]) && DoSweepLock(s[3], keys, s[4]) && DoSweepRecheck(s[4], keys, s[5])
    requires DoSweepRemoved(s[5], k, s[6]) && DoSweepCommit(s[6], s[7])
    ensures IsFragment(s,
      [Mark, Tick(to), SweepScan(grace, "", keys), SweepLock(keys), SweepRecheck(keys), SweepRemoved(k), SweepCommit])
  {
    hide DoMark, DoSweepScan, DoSweepLock, DoSweepRecheck, DoSweepRemoved, DoSweepCommit;
  }

  lemma CollectionRuns(grace: Time)
    ensures IsFragment(Stages(grace), Collection(grace))
  {
    KeyIsMarked();
    KeyIsPicked(grace);
    KeyIsSentenced(grace);
    KeyIsErased(grace);
    hide DoMark, DoSweepScan, DoSweepLock, DoSweepRecheck, DoSweepRemoved, DoSweepCommit, IsFragment;
    CollectionSteps(Stages(grace), grace, RipeAt(grace), {"k"}, "k");
  }

  /** Whenever the grace period falls short of the pending age, a run that uses it can mark
      and sweep an object that was live when it began, before the pending age has passed. */
  lemma ShortGraceSweepsEarly(age: nat)
    requires GracePeriod(age) < age
    ensures var grace := GracePeriod(age);
            && LeadsTo(Start, Orphan) && Live(Orphan.rows, "k")
            && IsFragment(Stages(grace), Collection(grace)) && Stages(grace)[0] == Orphan
            && Stages(grace)[|Collection(grace)|] == Gone(grace)
            && "k" !in Gone(grace).rows && "k" !in Gone(grace).bucket
            && Gone(grace).now < Orphan.now + age
  {
    hide IsFragment, LeadsTo;
    KeyIsOrphaned();
    CollectionRuns(GracePeriod(age));
  }
}
