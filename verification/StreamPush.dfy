/** Pushing store paths as they are read from a stream: plain lines are gathered into
    batches, request lines are pushed on their own, and every path gets one result. */
module StreamPush {
  import opened Wrappers
  import opened Text

  const DefaultStreamBatchSize: int := 50
  const StreamIsolationProbes: nat := 3

  datatype Request = Request(id: nat, paths: seq<string>)

  datatype StreamResult = StreamResult(id: nat, path: string, ok: bool, message: string)

  datatype Job = Batch(paths: seq<string>) | One(line: string)

  /** What the outside decides, whenever it is asked: whether a push fails (and how), which
      running jobs are done, whether input is waiting, which ready case a select takes,
      and whether the context is done. `parse` is json.Unmarshal. */
  datatype World = World(
    push: (nat, seq<string>) -> Option<string>,
    finished: nat -> nat,
    which: nat -> nat,
    waiting: nat -> bool,
    takeSlot: nat -> bool,
    cancelled: nat -> bool,
    parse: string -> Option<Request>)

  /** A push that was asked for at time t. */
  datatype Call = Call(t: nat, paths: seq<string>)

  /** An id and a path: what a result is for. */
  type Key = (nat, string)

  function Tagged(id: nat, paths: seq<string>): seq<Key> {
    seq(|paths|, i requires 0 <= i < |paths| => (id, paths[i]))
  }

  function KeysOf(rs: seq<StreamResult>): seq<Key> {
    seq(|rs|, i requires 0 <= i < |rs| => (rs[i].id, rs[i].path))
  }

  /** A line that is a request and not a path. */
  predicate IsRequest(line: string) {
    line != "" && line[0] == '{'
  }

  /** The results a line is owed: one a path for a request, one for anything else. */
  function LineKeys(w: World, line: string): seq<Key> {
    if IsRequest(line) && w.parse(line).Some? && w.parse(line).value.paths != []
    then Tagged(w.parse(line).value.id, w.parse(line).value.paths)
    else [(0, line)]
  }

  function AllLineKeys(w: World, lines: seq<string>): seq<Key> {
    if lines == [] then [] else AllLineKeys(w, lines[..|lines| - 1]) + LineKeys(w, lines[|lines| - 1])
  }

  function JobKeys(w: World, job: Job): seq<Key> {
    match job
    case Batch(paths) => Tagged(0, paths)
    case One(line) => LineKeys(w, line)
  }

  function AllJobKeys(w: World, jobs: seq<Job>): seq<Key> {
    if jobs == [] then [] else AllJobKeys(w, jobs[..|jobs| - 1]) + JobKeys(w, jobs[|jobs| - 1])
  }

  /** A batch is made of plain lines and is not too long; a request stands alone. */
  ghost predicate GoodJob(batchSize: nat, taken: seq<string>, job: Job) {
    match job
    case Batch(paths) => 0 < |paths| <= batchSize && forall i :: 0 <= i < |paths| ==> !IsRequest(paths[i])
    case One(line) => IsRequest(line) && line in taken
  }

  /** A push carries plain lines, or exactly one request's paths. */
  ghost predicate GoodPush(w: World, batchSize: nat, taken: seq<string>, paths: seq<string>) {
    || (0 < |paths| <= batchSize && forall i :: 0 <= i < |paths| ==> !IsRequest(paths[i]))
    || exists line :: line in taken && IsRequest(line) && w.parse(line).Some? && w.parse(line).value.paths == paths
  }

  /** Only good jobs run, the growing batch is made of plain lines, and every push was good. */
  ghost predicate Sound(w: World, batchSize: nat, taken: seq<string>, running: seq<Job>, batch: seq<string>,
                        pushed: seq<Call>) {
    && (forall i :: 0 <= i < |running| ==> GoodJob(batchSize, taken, running[i]))
    && (forall i :: 0 <= i < |batch| ==> !IsRequest(batch[i]))
    && (forall k :: 0 <= k < |pushed| ==> GoodPush(w, batchSize, taken, pushed[k].paths))
  }

  ghost predicate Balanced(w: World, out: seq<StreamResult>, running: seq<Job>, batch: seq<string>, inHand: seq<Key>,
                           taken: seq<string>) {
    multiset(KeysOf(out)) + multiset(AllJobKeys(w, running)) + multiset(Tagged(0, batch)) + multiset(inHand)
      == multiset(AllLineKeys(w, taken))
  }

  // ---- what one job reports ----

  /** Pushed alone, exactly the paths in bad fail. */
  ghost predicate FailExactly(w: World, bad: set<string>) {
    forall t, p :: w.push(t, [p]).Some? <==> p in bad
  }

  /** The server looks unavailable: the first paths tried all fail. */
  predicate GivesUp(batch: seq<string>, bad: set<string>) {
    |batch| > 3 && forall i :: 0 <= i < 3 ==> batch[i] in bad
  }

  /** One good path among the first three, or a batch that short: then one bad path costs
      only itself. */
  ghost predicate Isolates(batch: seq<string>, bad: set<string>, rs: seq<StreamResult>)
    requires |rs| == |batch|
  {
    forall i :: 0 <= i < |batch| ==> (rs[i].ok <==> batch[i] !in bad && !GivesUp(batch, bad))
  }

  lemma KeysConcat(a: seq<StreamResult>, b: seq<StreamResult>)
    ensures KeysOf(a + b) == KeysOf(a) + KeysOf(b)
  {
  }

  function Uniform(id: nat, paths: seq<string>, ok: bool, message: string): (rs: seq<StreamResult>)
    ensures KeysOf(rs) == Tagged(id, paths) && forall i :: 0 <= i < |rs| ==> rs[i].ok == ok
  {
    seq(|paths|, i requires 0 <= i < |paths| => StreamResult(id, paths[i], ok, message))
  }

  class StreamPusher {
    const world: World
    const parallel: nat
    const batchSize: nat
    var clock: nat
    var batch: seq<string>
    var running: seq<Job>
    var out: seq<StreamResult>
    ghost var taken: seq<string>           // lines the loop has received
    ghost var pushed: seq<Call>            // every push so far

    constructor (world: World, parallel: int, batchSize: int)
      ensures Valid([]) && taken == [] && pushed == [] && out == []
      ensures this.world == world
      ensures this.parallel == if parallel < 1 then 1 else parallel
      ensures this.batchSize == if batchSize < 1 then 50 else batchSize
    {
      this.world := world;
      this.parallel := if parallel < 1 then 1 else parallel;
      this.batchSize := if batchSize < 1 then DefaultStreamBatchSize else batchSize;
      clock, batch, running, out, taken, pushed := 0, [], [], [], [], [];
    }

    /** At most `parallel` jobs run; everything is sound, and every line taken has been
        reported, is running, is in the batch or in hand, once each. */
    ghost predicate Valid(inHand: seq<Key>)
      reads this
    {
      && parallel > 0 && batchSize > 0 && |running| <= parallel && |batch| <= batchSize
      && Sound(world, batchSize, taken, running, batch, pushed)
      && Balanced(world, out, running, batch, inHand, taken)
      && Timely(pushed, clock) && Accounted(world, pushed, taken, out)
    }

    method Tick() returns (t: nat)
      modifies this`clock
      ensures t == old(clock) && clock == t + 1 && (Timely(pushed, old(clock)) ==> Timely(pushed, clock))
    {
      t, clock := clock, clock + 1;
    }

    method Push(paths: seq<string>) returns (err: Option<string>, ghost t: nat)
      requires Timely(pushed, clock)
      modifies this`clock, this`pushed
      ensures err == world.push(t, paths) && pushed == old(pushed) + [Call(t, paths)] && Timely(pushed, clock)
    {
      var now := Tick();
      t := now;
      err := world.push(now, paths);
      pushed := pushed + [Call(now, paths)];
    }

    /** All or nothing: one push, and every result says what became of it. */
    method UploadRequest(line: string) returns (results: seq<StreamResult>)
      requires IsRequest(line) && Timely(pushed, clock)
      modifies this`clock, this`pushed
      ensures Timely(pushed, clock) && KeysOf(results) == LineKeys(world, line)
      ensures PushesOnly(world, old(pushed), pushed, One(line))
      ensures BadLine(world, line) ==> results == [BadResult(line)]
      ensures !BadLine(world, line) ==> AllTruthful(world, pushed, |old(pushed)|, results)
      ensures forall i, j :: 0 <= i < j < |results| ==> results[i].ok == results[j].ok
    {
      var req := world.parse(line);
      if req.None? || req.value.paths == [] {
        return [StreamResult(0, line, false, "bad request line")];
      }
      var err, t := Push(req.value.paths);
      var ok := err.None?;
      results := [];
      for i := 0 to |req.value.paths|
        invariant results == Uniform(req.value.id, req.value.paths[..i], ok, if ok then "" else err.value)
      {
        results := results + [StreamResult(req.value.id, req.value.paths[i], ok, if ok then "" else err.value)];
      }
      assert req.value.paths[..|req.value.paths|] == req.value.paths;
      UniformIsTruthful(world, pushed, |old(pushed)|, |old(pushed)|, req.value.id, req.value.paths, err);
    }

    /** A batch: as a whole, and if that fails path by path. Every result says what became
        of a push of its path. */
    method Upload(batch: seq<string>) returns (results: seq<StreamResult>)
      requires batch != [] && Timely(pushed, clock)
      modifies this`clock, this`pushed
      ensures Timely(pushed, clock) && KeysOf(results) == Tagged(0, batch)
      ensures PushesOnly(world, old(pushed), pushed, Batch(batch)) && AllTruthful(world, pushed, |old(pushed)|, results)
      ensures forall bad :: FailExactly(world, bad) && NeverCancelled(world) ==>
        (forall i :: 0 <= i < |results| ==> results[i].ok) || (|results| == |batch| && Isolates(batch, bad, results))
    {
      ghost var from := |pushed|;
      var err, first := Push(batch);
      UniformIsTruthful(world, pushed, from, from, 0, batch, err);
      if err.None? {
        return Uniform(0, batch, true, "");
      }
      var now := Tick();
      if |batch| == 1 || world.cancelled(now) {
        results := Uniform(0, batch, false, err.value);
        if |batch| == 1 {
          assert batch == [batch[0]];
        }
        return;
      }
      hide Probed, PushesOnly, Isolates, FailExactly, AllTruthful, Timely, GivesUp;
      results := [];
      var succeeded, failures := 0, 0;
      NothingProbed(world, batch);
      NothingToTell(world, pushed, from);
      for i := 0 to |batch|
        invariant |results| == i && Probed(world, batch, results, succeeded, failures)
        invariant Timely(pushed, clock) && PushesOnly(world, old(pushed), pushed, Batch(batch))
        invariant AllTruthful(world, pushed, from, results) && from < |pushed| && pushed[from] == Call(first, batch)
      {
        if succeeded == 0 && failures >= StreamIsolationProbes {
          GaveUp(world, batch, results, failures, err.value);
          RestIsTruthful(world, pushed, from, results, batch, i, err.value);
          return results + Uniform(0, batch[i..], false, err.value);
        }
        ghost var before := pushed;
        var perr, t := Push([batch[i]]);
        OnePushMore(world, old(pushed), before, batch, i, t);
        var r := StreamResult(0, batch[i], perr.None?, if perr.None? then "" else perr.value);
        OneMoreProbed(world, batch, results, succeeded, failures, r, t);
        OneMoreTruthful(world, before, from, results, Call(t, [batch[i]]), r);
        results := results + [r];
        if perr.Some? {
          failures := failures + 1;
        } else {
          succeeded := succeeded + 1;
        }
      }
      AllProbed(world, batch, results, succeeded, failures);
    }

    // ---- the event loop ----

    /** Some running job is done: its results are written and its slot is free. */
    method FinishOne(ghost inHand: seq<Key>)
      requires Valid(inHand) && running != []
      modifies this`clock, this`running, this`out, this`pushed
      ensures Valid(inHand) && |running| == |old(running)| - 1
    {
      hide Sound, Balanced, PushesOnly, GoodJob, JobKeys, Timely, Accounted, JobTold;
      var t := Tick();
      var k := world.which(t) % |running|;
      RunningIsGood(world, batchSize, taken, running, batch, pushed, k);
      var results := RunJob(running[k]);
      FinishedSound(world, batchSize, taken, running, batch, old(pushed), pushed, k);
      FinishedBalanced(world, out, running, batch, inHand, taken, results, k);
      FinishedAccounted(world, batchSize, old(pushed), pushed, taken, out, running[k], results);
      running := running[..k] + running[k + 1..];
      out := out + results;
    }

    method RunJob(job: Job) returns (results: seq<StreamResult>)
      requires GoodJob(batchSize, taken, job) && Timely(pushed, clock)
      modifies this`clock, this`pushed
      ensures Timely(pushed, clock) && KeysOf(results) == JobKeys(world, job)
        && PushesOnly(world, old(pushed), pushed, job)
      ensures JobTold(world, pushed, |old(pushed)|, job, results)
    {
      hide PushesOnly, Timely, AllTruthful;
      match job
      case Batch(paths) => results := Upload(paths);
      case One(line) => results := UploadRequest(line);
    }

    method LetFinish()
      requires Valid([])
      modifies this`clock, this`running, this`out, this`pushed
      ensures Valid([])
    {
      var t := Tick();
      var n := world.finished(t);
      while n > 0 && running != []
        invariant Valid([])
      {
        FinishOne([]);
        n := n - 1;
      }
    }

    /** Wait for a slot, then run the job. */
    method Submit(job: Job, ghost rest: seq<Key>)
      requires Valid(JobKeys(world, job) + rest) && GoodJob(batchSize, taken, job)
      modifies this`clock, this`running, this`out, this`pushed
      ensures Valid(rest)
    {
      hide Sound, Balanced, Timely, Accounted, JobKeys, GoodJob;
      while |running| >= parallel
        invariant Valid(JobKeys(world, job) + rest)
        decreases |running|
      {
        FinishOne(JobKeys(world, job) + rest);
      }
      Submitted(world, batchSize, out, running, batch, rest, taken, pushed, job);
      running := running + [job];
    }

    method Flush(ghost inHand: seq<Key>)
      requires Valid(inHand)
      modifies this`clock, this`batch, this`running, this`out, this`pushed
      ensures Valid(inHand) && batch == []
    {
      hide Sound, Balanced, Timely, Accounted;
      if |batch| > 0 {
        var b := batch;
        BatchInHand(world, batchSize, out, running, batch, inHand, taken, pushed);
        batch := [];
        Submit(Batch(b), inHand);
      }
    }

    method Take(line: string)
      requires Valid([]) && |batch| < batchSize
      modifies this`clock, this`batch, this`running, this`out, this`pushed, this`taken
      ensures Valid([]) && |batch| < batchSize && taken == old(taken) + [line]
    {
      hide Sound, Balanced, Timely, Accounted;
      TakenGrows(world, batchSize, out, running, batch, taken, pushed, line);
      TakenAccounted(world, pushed, taken, out, line);
      taken := taken + [line];
      if HasPrefix(line, "{") {
        Flush(LineKeys(world, line));
        assert JobKeys(world, One(line)) + [] == LineKeys(world, line);
        Submit(One(line), []);
        return;
      }
      JoinsBatch(world, batchSize, out, running, batch, taken, pushed, line);
      batch := batch + [line];
      if |batch| == batchSize {
        Flush([]);
      }
    }

    /** A slot came free before the batch was full. */
    method StartBatch()
      requires Valid([]) && batch != [] && |running| < parallel
      modifies this`batch, this`running
      ensures Valid([]) && batch == []
    {
      hide Sound, Balanced, Timely, Accounted;
      BatchInHand(world, batchSize, out, running, batch, [], taken, pushed);
      Submitted(world, batchSize, out, running, [], [], taken, pushed, Batch(batch));
      running := running + [Batch(batch)];
      batch := [];
    }

    /** Takes lines until the input ends, or until the context is done. */
    method ReadLines(lines: seq<string>) returns (complete: bool)
      requires Valid([]) && taken == [] && |batch| < batchSize
      modifies this`clock, this`batch, this`running, this`out, this`pushed, this`taken
      ensures Valid([]) && taken <= lines && (complete ==> taken == lines) && (NeverCancelled(world) ==> complete)
    {
      hide Sound, Balanced, Timely, Accounted, NeverCancelled;
      var i, going := 0, true;
      complete := false;
      while going
        invariant Valid([]) && |batch| < batchSize && 0 <= i <= |lines| && taken == lines[..i]
        invariant complete ==> i == |lines|
        invariant !going && NeverCancelled(world) ==> complete
        decreases |lines| - i, |batch|, if going then 1 else 0
      {
        LetFinish();
        var received, stop := Select();
        if stop {
          going := false;
        } else if received && i == |lines| {
          complete, going := true, false;
        } else if received {
          Take(lines[i]);
          i := i + 1;
        }
      }
    }

    /** The two selects: a line (or the end of the input) is received, the context is done, or
        a slot is free and the batch starts. */
    method Select() returns (received: bool, stop: bool)
      requires Valid([])
      modifies this`clock, this`batch, this`running
      ensures Valid([]) && |batch| <= |old(batch)|
      ensures !received && !stop ==> |batch| < |old(batch)|
      ensures stop ==> !NeverCancelled(world)
    {
      hide Sound, Balanced, Timely, Accounted, NeverCancelled;
      var t := Tick();
      if batch == [] {
        CancelledOnce(world, t);
        return !world.cancelled(t), world.cancelled(t);
      }
      if world.waiting(t) {
        return true, false;
      }
      var u := Tick();
      CancelledOnce(world, u);
      if world.cancelled(u) {
        return false, true;
      }
      if world.takeSlot(u) && |running| < parallel {
        StartBatch();
        return false, false;
      }
      return true, false;
    }

    /** Returns once everything it has taken from the input is reported: after the end of
        the input, or early if the context is done. */
    method Run(input: seq<string>) returns (complete: bool)
      requires Valid([]) && taken == [] && |batch| < batchSize && out == []
      modifies this
      ensures running == [] && batch == [] && taken <= Feed(input)
      ensures multiset(KeysOf(out)) == multiset(AllLineKeys(world, taken))
      ensures Sound(world, batchSize, taken, [], [], pushed)
      ensures Timely(pushed, clock) && Accounted(world, pushed, taken, out)
      ensures complete ==> taken == Feed(input)
      ensures NeverCancelled(world) ==> complete
    {
      hide Sound, Balanced, Timely, Accounted, Feed, NeverCancelled;
      complete := ReadLines(Feed(input));
      ghost var received := taken;
      Flush([]);
      while running != []
        invariant Valid([]) && batch == [] && taken == received
        decreases |running|
      {
        FinishOne([]);
      }
      NothingPending(world, out, taken);
    }
  }

  /** The reader: white space around a line is dropped, and so are blank lines. */
  function Feed(input: seq<string>): seq<string> {
    if input == [] then []
    else Feed(input[..|input| - 1]) + if TrimSpace(input[|input| - 1]) == "" then []
      else [TrimSpace(input[|input| - 1])]
  }

  /** White space only. */
  ghost predicate IsBlank(s: string) {
    forall i :: 0 <= i < |s| ==> IsSpace(s[i])
  }

  lemma NothingIsBlank()
    ensures IsBlank("")
  {
  }

  lemma BlankMore(c: char, s: string)
    requires IsSpace(c) && IsBlank(s)
    ensures IsBlank([c] + s) && IsBlank(s + [c])
  {
  }

  lemma {:induction false} TrimmedIs(s: string) returns (before: string, after: string)
    ensures s == before + TrimSpace(s) + after && IsBlank(before) && IsBlank(after)
    ensures TrimSpace(s) != "" ==> !IsSpace(TrimSpace(s)[0]) && !IsSpace(TrimSpace(s)[|TrimSpace(s)| - 1])
  {
    hide IsSpace, IsBlank;
    if s != "" && IsSpace(s[0]) {
      before, after := TrimmedIs(s[1..]);
      BlankMore(s[0], before);
      before := [s[0]] + before;
    } else if s != "" && IsSpace(s[|s| - 1]) {
      before, after := TrimmedIs(s[..|s| - 1]);
      BlankMore(s[|s| - 1], after);
      after := after + [s[|s| - 1]];
    } else {
      before, after := "", "";
      NothingIsBlank();
    }
  }

  /** Line by line: a blank one gives nothing, any other the text between its outer spaces. */
  lemma FeedIs(input: seq<string>, line: string) returns (before: string, text: string, after: string)
    ensures line == before + text + after && IsBlank(before) && IsBlank(after)
    ensures text != "" ==> !IsSpace(text[0]) && !IsSpace(text[|text| - 1])
    ensures Feed([]) == [] && Feed(input + [line]) == Feed(input) + if text == "" then [] else [text]
  {
    before, after := TrimmedIs(line);
    text := TrimSpace(line);
    assert (input + [line])[..|input|] == input;
  }

  lemma CancelledOnce(w: World, t: nat)
    ensures w.cancelled(t) ==> !NeverCancelled(w)
  {
  }

  lemma RunningIsGood(w: World, batchSize: nat, taken: seq<string>, running: seq<Job>, batch: seq<string>,
                      pushed: seq<Call>, k: nat)
    requires Sound(w, batchSize, taken, running, batch, pushed) && k < |running|
    ensures GoodJob(batchSize, taken, running[k])
  {
  }

  lemma FinishedSound(w: World, batchSize: nat, taken: seq<string>, running: seq<Job>, batch: seq<string>,
                      before: seq<Call>, after: seq<Call>, k: nat)
    requires Sound(w, batchSize, taken, running, batch, before) && k < |running|
      && PushesOnly(w, before, after, running[k])
    ensures Sound(w, batchSize, taken, running[..k] + running[k + 1..], batch, after)
  {
    var job := running[k];
    assert GoodJob(batchSize, taken, job);
    forall i | 0 <= i < |after| ensures GoodPush(w, batchSize, taken, after[i].paths) {
      if i < |before| { assert after[i] == before[i] && GoodPush(w, batchSize, taken, before[i].paths); }
    }
    var rest := running[..k] + running[k + 1..];
    forall i | 0 <= i < |rest| ensures GoodJob(batchSize, taken, rest[i]) {
      assert GoodJob(batchSize, taken, running[if i < k then i else i + 1]);
    }
  }

  lemma FinishedBalanced(w: World, out: seq<StreamResult>, running: seq<Job>, batch: seq<string>, inHand: seq<Key>,
                         taken: seq<string>, results: seq<StreamResult>, k: nat)
    requires Balanced(w, out, running, batch, inHand, taken) && k < |running|
      && KeysOf(results) == JobKeys(w, running[k])
    ensures Balanced(w, out + results, running[..k] + running[k + 1..], batch, inHand, taken)
  {
    hide AllJobKeys, JobKeys, AllLineKeys, KeysOf, Tagged;
    OneJobLess(w, running, k);
    KeysConcat(out, results);
  }

  lemma Submitted(w: World, batchSize: nat, out: seq<StreamResult>, running: seq<Job>, batch: seq<string>,
                  rest: seq<Key>,
                  taken: seq<string>, pushed: seq<Call>, job: Job)
    requires Sound(w, batchSize, taken, running, batch, pushed) && GoodJob(batchSize, taken, job)
    requires Balanced(w, out, running, batch, JobKeys(w, job) + rest, taken)
    ensures Sound(w, batchSize, taken, running + [job], batch, pushed)
    ensures Balanced(w, out, running + [job], batch, rest, taken)
  {
    hide AllJobKeys, JobKeys, AllLineKeys, KeysOf, Tagged, GoodJob, GoodPush;
    OneJobMore(w, running, job);
  }

  /** The batch becomes a job in hand. */
  lemma BatchInHand(w: World, batchSize: nat, out: seq<StreamResult>, running: seq<Job>, batch: seq<string>,
                    inHand: seq<Key>,
                    taken: seq<string>, pushed: seq<Call>)
    requires Sound(w, batchSize, taken, running, batch, pushed) && Balanced(w, out, running, batch, inHand, taken)
    ensures Sound(w, batchSize, taken, running, [], pushed)
    ensures Balanced(w, out, running, [], JobKeys(w, Batch(batch)) + inHand, taken)
    ensures 0 < |batch| <= batchSize ==> GoodJob(batchSize, taken, Batch(batch))
  {
    hide AllJobKeys, AllLineKeys, KeysOf, GoodPush;
    assert Tagged(0, []) == [];
  }

  lemma TakenGrows(w: World, batchSize: nat, out: seq<StreamResult>, running: seq<Job>, batch: seq<string>,
                   taken: seq<string>,
                   pushed: seq<Call>, line: string)
    requires Sound(w, batchSize, taken, running, batch, pushed) && Balanced(w, out, running, batch, [], taken)
    ensures Sound(w, batchSize, taken + [line], running, batch, pushed)
    ensures Balanced(w, out, running, batch, LineKeys(w, line), taken + [line])
  {
    hide AllJobKeys, LineKeys, KeysOf, Tagged;
    assert (taken + [line])[..|taken|] == taken;
    forall i | 0 <= i < |running| ensures GoodJob(batchSize, taken + [line], running[i]) {
      assert GoodJob(batchSize, taken, running[i]);
    }
    forall k | 0 <= k < |pushed| ensures GoodPush(w, batchSize, taken + [line], pushed[k].paths) {
      assert GoodPush(w, batchSize, taken, pushed[k].paths);
    }
  }

  lemma JoinsBatch(w: World, batchSize: nat, out: seq<StreamResult>, running: seq<Job>, batch: seq<string>,
                   taken: seq<string>,
                   pushed: seq<Call>, line: string)
    requires Sound(w, batchSize, taken, running, batch, pushed)
      && Balanced(w, out, running, batch, LineKeys(w, line), taken)
    requires !IsRequest(line)
    ensures Sound(w, batchSize, taken, running, batch + [line], pushed)
    ensures Balanced(w, out, running, batch + [line], [], taken)
  {
    hide AllJobKeys, AllLineKeys, KeysOf, GoodJob, GoodPush;
    assert Tagged(0, batch + [line]) == Tagged(0, batch) + [(0, line)];
  }

  lemma {:induction false} JobKeysConcat(w: World, a: seq<Job>, b: seq<Job>)
    ensures AllJobKeys(w, a + b) == AllJobKeys(w, a) + AllJobKeys(w, b)
  {
    hide JobKeys;
    if b == [] {
      assert a + b == a;
    } else {
      var ab := a + b;
      assert ab[..|ab| - 1] == a + b[..|b| - 1] && ab[|ab| - 1] == b[|b| - 1];
      JobKeysConcat(w, a, b[..|b| - 1]);
    }
  }

  lemma OneJobMore(w: World, jobs: seq<Job>, job: Job)
    ensures multiset(AllJobKeys(w, jobs + [job])) == multiset(AllJobKeys(w, jobs)) + multiset(JobKeys(w, job))
  {
    assert (jobs + [job])[..|jobs|] == jobs;
  }

  lemma OneJobLess(w: World, jobs: seq<Job>, k: nat)
    requires k < |jobs|
    ensures multiset(AllJobKeys(w, jobs))
      == multiset(AllJobKeys(w, jobs[..k] + jobs[k + 1..])) + multiset(JobKeys(w, jobs[k]))
  {
    assert jobs == jobs[..k] + [jobs[k]] + jobs[k + 1..];
    JobKeysConcat(w, jobs[..k] + [jobs[k]], jobs[k + 1..]);
    JobKeysConcat(w, jobs[..k], jobs[k + 1..]);
    OneJobMore(w, jobs[..k], jobs[k]);
  }

  lemma NothingPending(w: World, out: seq<StreamResult>, taken: seq<string>)
    requires Balanced(w, out, [], [], [], taken)
    ensures multiset(KeysOf(out)) == multiset(AllLineKeys(w, taken))
  {
    assert AllJobKeys(w, []) == [] && Tagged(0, []) == [];
  }

  ghost predicate NeverCancelled(w: World) {
    forall t :: !w.cancelled(t)
  }

  /** What was pushed since `before` belongs to the job: a request's paths together, a
      batch as a whole and then one path of it at a time. */
  ghost predicate PushesOnly(w: World, before: seq<Call>, after: seq<Call>, job: Job) {
    && before <= after
    && match job
       case Batch(paths) =>
         && |before| < |after| && after[|before|].paths == paths
         && forall k :: |before| < k < |after| ==> |after[k].paths| == 1 && after[k].paths[0] in paths
       case One(line) =>
         if BadLine(w, line) then after == before
         else |after| == |before| + 1 && after[|before|].paths == w.parse(line).value.paths
  }

  lemma OnePushMore(w: World, before: seq<Call>, after: seq<Call>, batch: seq<string>, i: nat, t: nat)
    requires i < |batch| && PushesOnly(w, before, after, Batch(batch))
    ensures PushesOnly(w, before, after + [Call(t, [batch[i]])], Batch(batch))
  {
  }

  // ---- true results ----

  /** Pushes come one after the other. */
  ghost predicate Timely(pushed: seq<Call>, clock: nat) {
    && (forall k :: 0 <= k < |pushed| ==> pushed[k].t < clock)
    && forall i, j :: 0 <= i < j < |pushed| ==> pushed[i].t < pushed[j].t
  }

  /** The call pushed the result's path, and ended as the result says. */
  ghost predicate Backs(w: World, c: Call, r: StreamResult) {
    r.path in c.paths && w.push(c.t, c.paths) == if r.ok then None else Some(r.message)
  }

  ghost predicate Truthful(w: World, pushed: seq<Call>, from: nat, r: StreamResult) {
    exists k :: from <= k < |pushed| && Backs(w, pushed[k], r)
  }

  ghost predicate AllTruthful(w: World, pushed: seq<Call>, from: nat, results: seq<StreamResult>) {
    forall i :: 0 <= i < |results| ==> Truthful(w, pushed, from, results[i])
  }

  /** A request line that does not parse, or names no path. */
  predicate BadLine(w: World, line: string) {
    w.parse(line).None? || w.parse(line).value.paths == []
  }

  function BadResult(line: string): StreamResult {
    StreamResult(0, line, false, "bad request line")
  }

  ghost predicate JobTold(w: World, pushed: seq<Call>, from: nat, job: Job, results: seq<StreamResult>) {
    if job.One? && BadLine(w, job.line) then results == [BadResult(job.line)] else AllTruthful(w, pushed, from, results)
  }

  /** Every result written so far is true, or is for a bad request line. */
  ghost predicate Accounted(w: World, pushed: seq<Call>, taken: seq<string>, out: seq<StreamResult>) {
    forall i :: 0 <= i < |out| ==> Truthful(w, pushed, 0, out[i]) || ForBadLine(w, taken, out[i])
  }

  ghost predicate ForBadLine(w: World, taken: seq<string>, r: StreamResult) {
    r == BadResult(r.path) && r.path in taken && IsRequest(r.path) && BadLine(w, r.path)
  }

  lemma StillTruthful(w: World, before: seq<Call>, after: seq<Call>, from: nat, since: nat, r: StreamResult)
    requires before <= after && from <= since && Truthful(w, before, since, r)
    ensures Truthful(w, after, from, r)
  {
    var k :| since <= k < |before| && Backs(w, before[k], r);
    assert after[k] == before[k];
  }

  lemma UniformIsTruthful(w: World, pushed: seq<Call>, from: nat, k: nat, id: nat, paths: seq<string>,
                          err: Option<string>)
    requires from <= k < |pushed| && pushed[k].paths == paths && err == w.push(pushed[k].t, paths)
    ensures AllTruthful(w, pushed, from, Uniform(id, paths, err.None?, if err.None? then "" else err.value))
  {
    var rs := Uniform(id, paths, err.None?, if err.None? then "" else err.value);
    forall i | 0 <= i < |rs| ensures Truthful(w, pushed, from, rs[i]) {
      assert Backs(w, pushed[k], rs[i]);
    }
  }

  lemma NothingToTell(w: World, pushed: seq<Call>, from: nat)
    ensures AllTruthful(w, pushed, from, [])
  {
  }

  lemma OneMoreTruthful(w: World, pushed: seq<Call>, from: nat, results: seq<StreamResult>, c: Call, r: StreamResult)
    requires from <= |pushed| && AllTruthful(w, pushed, from, results) && Backs(w, c, r)
    ensures AllTruthful(w, pushed + [c], from, results + [r])
  {
    var more := pushed + [c];
    forall i | 0 <= i < |results + [r]| ensures Truthful(w, more, from, (results + [r])[i]) {
      if i < |results| {
        StillTruthful(w, pushed, more, from, from, results[i]);
      } else {
        assert Backs(w, more[|pushed|], r);
      }
    }
  }

  /** Paths that are given up on get the error of the whole batch. */
  lemma RestIsTruthful(w: World, pushed: seq<Call>, from: nat, results: seq<StreamResult>, batch: seq<string>,
                       n: nat, message: string)
    requires AllTruthful(w, pushed, from, results) && n <= |batch|
    requires from < |pushed| && pushed[from].paths == batch && w.push(pushed[from].t, batch) == Some(message)
    ensures AllTruthful(w, pushed, from, results + Uniform(0, batch[n..], false, message))
  {
    var rest := Uniform(0, batch[n..], false, message);
    forall i | 0 <= i < |results + rest| ensures Truthful(w, pushed, from, (results + rest)[i]) {
      if i >= |results| {
        assert rest[i - |results|].path == batch[n + i - |results|];
        assert Backs(w, pushed[from], (results + rest)[i]);
      }
    }
  }

  lemma FinishedAccounted(w: World, batchSize: nat, before: seq<Call>, after: seq<Call>, taken: seq<string>,
                          out: seq<StreamResult>, job: Job, results: seq<StreamResult>)
    requires Accounted(w, before, taken, out) && PushesOnly(w, before, after, job) && GoodJob(batchSize, taken, job)
    requires JobTold(w, after, |before|, job, results)
    ensures Accounted(w, after, taken, out + results)
  {
    hide Truthful;
    forall i | 0 <= i < |out + results|
      ensures Truthful(w, after, 0, (out + results)[i]) || ForBadLine(w, taken, (out + results)[i]) {
      if i >= |out| {
        if !(job.One? && BadLine(w, job.line)) { StillTruthful(w, after, after, 0, |before|, results[i - |out|]); }
      } else if !ForBadLine(w, taken, out[i]) {
        StillTruthful(w, before, after, 0, 0, out[i]);
      }
    }
  }

  lemma TakenAccounted(w: World, pushed: seq<Call>, taken: seq<string>, out: seq<StreamResult>, line: string)
    requires Accounted(w, pushed, taken, out)
    ensures Accounted(w, pushed, taken + [line], out)
  {
    hide Truthful;
    forall i | 0 <= i < |out| ensures Truthful(w, pushed, 0, out[i]) || ForBadLine(w, taken + [line], out[i]) {
      if ForBadLine(w, taken, out[i]) { assert out[i].path in taken + [line]; }
    }
  }

  // ---- a failed batch, path by path ----

  predicate AllFailed(results: seq<StreamResult>, n: nat)
    requires n <= |results|
  {
    forall j :: 0 <= j < n ==> !results[j].ok
  }

  ghost predicate Probed(w: World, batch: seq<string>, results: seq<StreamResult>, succeeded: int, failures: int) {
    && |results| <= |batch| && KeysOf(results) == Tagged(0, batch[..|results|]) && 0 <= succeeded
    && (succeeded == 0 ==> failures == |results| <= StreamIsolationProbes)
    && (succeeded == 0 <==> AllFailed(results, |results|))
    && (|results| > StreamIsolationProbes ==> !AllFailed(results, StreamIsolationProbes))
    && forall bad :: FailExactly(w, bad) ==> AsExpected(batch, bad, results)
  }

  /** So far, exactly the bad paths failed. */
  ghost predicate AsExpected(batch: seq<string>, bad: set<string>, results: seq<StreamResult>)
    requires |results| <= |batch|
  {
    forall j :: 0 <= j < |results| ==> (results[j].ok <==> batch[j] !in bad)
  }

  lemma NothingProbed(w: World, batch: seq<string>)
    ensures Probed(w, batch, [], 0, 0)
  {
    hide FailExactly;
  }

  lemma OneMoreProbed(w: World, batch: seq<string>, results: seq<StreamResult>, succeeded: int, failures: int,
                      r: StreamResult, t: nat)
    requires |results| < |batch| && Probed(w, batch, results, succeeded, failures)
    requires !(succeeded == 0 && failures >= StreamIsolationProbes)
    requires r.id == 0 && r.path == batch[|results|] && r.ok == w.push(t, [batch[|results|]]).None?
    ensures Probed(w, batch, results + [r], if r.ok then succeeded + 1 else succeeded, if r.ok then failures
      else failures + 1)
  {
    hide FailExactly;
    var n, rs := |results|, results + [r];
    KeysConcat(results, [r]);
    assert batch[..n + 1] == batch[..n] + [batch[n]];
    PushAlone(w, t, batch[n]);
    FailedPrefix(results, r, n);
    if n >= StreamIsolationProbes { FailedPrefix(results, r, StreamIsolationProbes); }
  }

  lemma FailedPrefix(results: seq<StreamResult>, r: StreamResult, n: nat)
    requires n <= |results|
    ensures AllFailed(results + [r], n) <==> AllFailed(results, n)
    ensures AllFailed(results + [r], |results| + 1) <==> AllFailed(results, |results|) && !r.ok
  {
    var rs := results + [r];
    forall j | 0 <= j < |results| ensures rs[j] == results[j] {}
    if AllFailed(rs, |results| + 1) {
      assert !rs[|results|].ok;
      forall j | 0 <= j < |results| ensures !results[j].ok { assert !rs[j].ok; }
    }
    if AllFailed(rs, n) {
      forall j | 0 <= j < n ensures !results[j].ok { assert !rs[j].ok; }
    }
  }

  lemma AllProbed(w: World, batch: seq<string>, results: seq<StreamResult>, succeeded: int, failures: int)
    requires Probed(w, batch, results, succeeded, failures) && |results| == |batch|
    ensures KeysOf(results) == Tagged(0, batch)
    ensures forall bad :: FailExactly(w, bad) ==> Isolates(batch, bad, results)
  {
    hide FailExactly;
    assert batch[..|batch|] == batch;
  }

  lemma PushAlone(w: World, t: nat, p: string)
    ensures forall bad :: FailExactly(w, bad) ==> (w.push(t, [p]).Some? <==> p in bad)
  {
  }

  lemma GaveUp(w: World, batch: seq<string>, results: seq<StreamResult>, failures: int, message: string)
    requires Probed(w, batch, results, 0, failures) && failures >= StreamIsolationProbes && |results| < |batch|
    ensures var rs := results + Uniform(0, batch[|results|..], false, message);
            KeysOf(rs) == Tagged(0, batch) && |rs| == |batch| && forall bad :: FailExactly(w, bad) ==>
              Isolates(batch, bad, rs)
  {
    hide FailExactly;
    KeysConcat(results, Uniform(0, batch[|results|..], false, message));
    assert Tagged(0, batch[..|results|]) + Tagged(0, batch[|results|..]) == Tagged(0, batch);
  }
}
