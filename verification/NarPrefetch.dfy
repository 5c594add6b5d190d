/** Reading ahead of the serializer. An enqueuer sends every small file to two bounded
    channels, workers read the files in any order, and the writer (or, after an error, a
    drainer) receives them in the order they were sent. */
module NarPrefetch {
  import opened Wrappers
  import opened NarFormat
  import opened NarWalk
  import opened NarWriter

  const QueueDepth: nat := 128

  /** What the writer does next: take a small file's contents from the queue, read a large
      file itself, or write strings that need no file. */
  datatype Op = Take(want: Prefetched) | Stream(file: Prefetched) | Direct(tokens: seq<Bytes>)

  /** What it writes then; None if the file cannot be read. */
  function Written(op: Op): Option<seq<Bytes>> {
    match op
    case Direct(tokens) => Some(tokens)
    case Take(want) => if want.data.Some? then Some([want.data.value]) else None
    case Stream(file) => if file.data.Some? then Some([file.data.value]) else None
  }

  /** One dump: the files the enqueuer sends, what the writer does, the size of the pool. */
  datatype Setup = Setup(files: seq<Prefetched>, ops: seq<Op>, workers: nat)

  datatype Worker = Idle | Reading(file: nat) | Exited

  datatype WriterState =
    | Writing(pc: nat)
    | Awaiting(pc: nat, file: nat)   // received, not done reading
    | Stopped(ok: bool)              // waiting for the enqueuer
    | Returned(ok: bool)

  datatype Drainer = Absent | Draining | Awaits(file: nat) | Drained

  datatype State = State(
    sent: nat,            // files sent to the queue
    handed: nat,          // files sent to the workers
    queue: seq<nat>,
    work: seq<nat>,
    workClosed: bool,
    queueClosed: bool,
    workers: seq<Worker>,
    done: set<nat>,       // files read, or failed to
    released: set<nat>,
    writer: WriterState,
    drainer: Drainer)

  datatype Step =
    | Send | Hand | CloseWork | CloseQueue                       // the enqueuer
    | Fetch(w: nat) | Finish(w: nat) | Exit(w: nat)              // a worker
    | Receive | WriteTaken | WriteDirect | Stop | Fail | Return     // the writer
    | Drain | DrainRelease | DrainEnd                            // the drainer

  function Initial(c: Setup): State {
    State(0, 0, [], [], false, false, seq(c.workers, _ => Idle), {}, {}, Writing(0), Absent)
  }

  predicate IsWorker(s: State, w: nat) {
    w < |s.workers|
  }

  predicate Enabled(c: Setup, s: State, step: Step) {
    match step
    case Send => s.sent == s.handed && s.sent < |c.files| && |s.queue| < QueueDepth
    case Hand => s.handed < s.sent && |s.work| < QueueDepth
    case CloseWork => s.handed == s.sent == |c.files| && !s.workClosed
    case CloseQueue => s.workClosed && (forall w :: 0 <= w < |s.workers| ==> s.workers[w] == Exited) && !s.queueClosed
    case Fetch(w) => IsWorker(s, w) && s.workers[w] == Idle && s.work != []
    case Finish(w) => IsWorker(s, w) && s.workers[w].Reading?
    case Exit(w) => IsWorker(s, w) && s.workers[w] == Idle && s.work == [] && s.workClosed
    case Receive => s.writer.Writing? && s.writer.pc < |c.ops| && c.ops[s.writer.pc].Take? && s.queue != []
    case WriteTaken => s.writer.Awaiting? && s.writer.file in s.done && s.writer.file < |c.files|
      && c.files[s.writer.file].data.Some?
    case WriteDirect => s.writer.Writing? && s.writer.pc < |c.ops| && !c.ops[s.writer.pc].Take?
      && Written(c.ops[s.writer.pc]).Some?
    case Stop => s.writer.Writing? && s.writer.pc == |c.ops|
    case Fail => (s.writer.Writing? && s.writer.pc <= |c.ops|) || (s.writer.Awaiting? && s.writer.file in s.done)
    case Return => s.writer.Stopped? && s.queueClosed
    case Drain => s.drainer == Draining && s.queue != []
    case DrainRelease => s.drainer.Awaits? && s.drainer.file in s.done
    case DrainEnd => s.drainer == Draining && s.queue == [] && s.queueClosed
  }

  function Next(c: Setup, s: State, step: Step): State
    requires Enabled(c, s, step)
  {
    match step
    case Send => s.(sent := s.sent + 1, queue := s.queue + [s.sent])
    case Hand => s.(handed := s.handed + 1, work := s.work + [s.handed])
    case CloseWork => s.(workClosed := true)
    case CloseQueue => s.(queueClosed := true)
    case Fetch(w) => s.(work := s.work[1..], workers := s.workers[w := Reading(s.work[0])])
    case Finish(w) => s.(done := s.done + {s.workers[w].file}, workers := s.workers[w := Idle])
    case Exit(w) => s.(workers := s.workers[w := Exited])
    case Receive => s.(queue := s.queue[1..], writer := Awaiting(s.writer.pc, s.queue[0]))
    case WriteTaken => s.(released := s.released + {s.writer.file}, writer := Writing(s.writer.pc + 1))
    case WriteDirect => s.(writer := Writing(s.writer.pc + 1))
    case Stop => s.(writer := Stopped(true))
    case Fail =>
      var released := if s.writer.Awaiting? then s.released + {s.writer.file} else s.released;
      s.(released := released, writer := Stopped(false), drainer := Draining)
    case Return => s.(writer := Returned(s.writer.ok))
    case Drain => s.(queue := s.queue[1..], drainer := Awaits(s.queue[0]))
    case DrainRelease => s.(released := s.released + {s.drainer.file}, drainer := Draining)
    case DrainEnd => s.(drainer := Drained)
  }

  /** The dump has returned and no goroutine is left. */
  predicate Final(s: State) {
    && s.writer.Returned? && s.queueClosed
    && (s.writer.ok || s.drainer == Drained)
    && forall w :: 0 <= w < |s.workers| ==> s.workers[w] == Exited
  }

  // ---- the two walks of one tree ----

  /** What the writer does for a tree: DFS, directories included. */
  function Ops(n: Walked): seq<Op>
    decreases n, 0
  {
    match n
    case WFile(path, size, executable, data) =>
      var file := ReadFile(path, size, data);
      [Direct(RegularHead(executable))] + [if ShouldPrefetch(n) then Take(file) else Stream(file)]
    case WDir(children) => [Direct(["type", "directory"])] + AllOps(children)
    case WLink(target) => [Direct(["type", "symlink", "target", target])]
  }

  function AllOps(children: seq<Child>): seq<Op>
    decreases children, 1
  {
    if children == [] then []
    else [Direct(EntryHead(children[0].name))] + Ops(children[0].node) + [Direct([")", ")"])] + AllOps(children[1..])
  }

  function Wants(ops: seq<Op>): seq<Prefetched> {
    if ops == [] then [] else OwnWant(ops[0]) + Wants(ops[1..])
  }

  lemma {:induction false} WantsConcat(a: seq<Op>, b: seq<Op>)
    ensures Wants(a + b) == Wants(a) + Wants(b)
  {
    hide OwnWant;
    if a == [] {
      assert a + b == b;
    } else {
      assert (a + b)[1..] == a[1..] + b && (a + b)[0] == a[0];
      WantsConcat(a[1..], b);
      assert OwnWant(a[0]) + (Wants(a[1..]) + Wants(b)) == OwnWant(a[0]) + Wants(a[1..]) + Wants(b);
    }
  }

  function OwnWant(op: Op): seq<Prefetched> { if op.Take? then [op.want] else [] }

  /** The enqueuer's walk and the writer's walk agree. */
  lemma {:induction false} WalksAgree(n: Walked)
    ensures Wants(Ops(n)) == SmallFiles(n)
    decreases n, 0
  {
    match n
    case WFile(path, size, executable, data) =>
      var file := ReadFile(path, size, data);
      WantsConcat([Direct(RegularHead(executable))], [if ShouldPrefetch(n) then Take(file) else Stream(file)]);
    case WLink(_) =>
    case WDir(children) =>
      AllWalksAgree(children);
      WantsConcat([Direct(["type", "directory"])], AllOps(children));
  }

  lemma {:induction false} AllWalksAgree(children: seq<Child>)
    ensures Wants(AllOps(children)) == AllSmallFiles(children)
    decreases children, 1
  {
    if children != [] {
      WalksAgree(children[0].node);
      AllWalksAgree(children[1..]);
      var open, close := [Direct(EntryHead(children[0].name))], [Direct([")", ")"])];
      WantsConcat(open + Ops(children[0].node) + close, AllOps(children[1..]));
      WantsConcat(open + Ops(children[0].node), close);
      WantsConcat(open, Ops(children[0].node));
    }
  }

  /** A dump of a walked tree. */
  predicate Agreed(c: Setup) {
    c.workers > 0 && Wants(c.ops) == c.files
  }

  function DumpOf(root: Walked, workers: nat): (c: Setup)
    requires workers > 0
    ensures Agreed(c)
  {
    DumpAgrees(root);
    Setup(SmallFiles(root), DumpOps(root), workers)
  }

  function DumpOps(root: Walked): seq<Op> {
    [Direct(["nix-archive-1", "("])] + Ops(root) + [Direct([")"])]
  }

  lemma DumpAgrees(root: Walked)
    ensures Wants(DumpOps(root)) == SmallFiles(root)
  {
    WalksAgree(root);
    var open, close := [Direct(["nix-archive-1", "("])], [Direct([")"])];
    WantsConcat(open + Ops(root), close);
    WantsConcat(open, Ops(root));
  }

  // ---- the invariant ----

  function Popped(s: State): int { s.sent - |s.queue| }

  function Fetched(s: State): int { s.handed - |s.work| }

  ghost predicate Channels(c: Setup, s: State) {
    && s.handed <= s.sent <= s.handed + 1 && s.sent <= |c.files|
    && |s.queue| <= s.sent && |s.queue| <= QueueDepth && |s.work| <= s.handed && |s.work| <= QueueDepth
    && (forall i :: 0 <= i < |s.queue| ==> s.queue[i] == Popped(s) + i)
    && (forall i :: 0 <= i < |s.work| ==> s.work[i] == Fetched(s) + i)
    && (s.workClosed ==> s.handed == s.sent == |c.files|)
  }

  ghost predicate BeingRead(s: State, f: nat) {
    exists w :: 0 <= w < |s.workers| && s.workers[w] == Reading(f)
  }

  ghost predicate Pool(c: Setup, s: State) {
    && |s.workers| == c.workers
    && (forall w :: 0 <= w < |s.workers| && s.workers[w].Reading? ==>
      s.workers[w].file < Fetched(s) && s.workers[w].file !in s.done)
    && (forall v, w :: 0 <= v < w < |s.workers| && s.workers[v].Reading? && s.workers[w].Reading? ==>
      s.workers[v].file != s.workers[w].file)
    && (forall f :: f in s.done ==> f < Fetched(s))
    && (forall f: nat :: f < Fetched(s) && f !in s.done ==> BeingRead(s, f))
    && (forall w :: 0 <= w < |s.workers| && s.workers[w] == Exited ==> s.workClosed && s.work == [])
    && (s.queueClosed ==> s.workClosed && forall w :: 0 <= w < |s.workers| ==> s.workers[w] == Exited)
  }

  /** The file that has been received but not released. */
  function InHand(s: State): set<nat> {
    (if s.writer.Awaiting? then {s.writer.file} else {}) + (if s.drainer.Awaits? then {s.drainer.file} else {})
  }

  ghost predicate Readers(c: Setup, s: State) {
    && 0 <= Popped(s) <= |c.files|
    && (match s.writer
        case Writing(pc) => pc <= |c.ops| && Wants(c.ops[pc..]) == c.files[Popped(s)..] && s.drainer == Absent
        case Awaiting(pc, f) =>
          && pc < |c.ops| && f == Popped(s) - 1 && c.ops[pc] == Take(c.files[f])
          && Wants(c.ops[pc + 1..]) == c.files[Popped(s)..] && s.drainer == Absent
        case Stopped(ok) => if ok then Popped(s) == |c.files| && s.drainer == Absent else s.drainer != Absent
        case Returned(ok) => s.queueClosed && if ok then Popped(s) == |c.files| && s.drainer == Absent
          else s.drainer != Absent)
    && (s.drainer.Awaits? ==> s.drainer.file == Popped(s) - 1)
    && (s.drainer == Drained ==> s.queueClosed && s.queue == [])
    && (forall f: nat :: f in s.released <==> f < Popped(s) && f !in InHand(s))
  }

  ghost predicate Inv(c: Setup, s: State) {
    Channels(c, s) && Pool(c, s) && Readers(c, s)
  }

  lemma InitialInv(c: Setup)
    requires Agreed(c)
    ensures Inv(c, Initial(c))
  {
    assert c.ops[0..] == c.ops && c.files[0..] == c.files;
  }

  lemma ChannelsKept(c: Setup, s: State, step: Step)
    requires Inv(c, s) && Enabled(c, s, step)
    ensures Channels(c, Next(c, s, step))
  {
    hide Pool, Readers;
  }

  lemma StillCovered(c: Setup, s: State, step: Step, f: nat)
    requires Channels(c, s) && Pool(c, s) && Enabled(c, s, step)
    requires f < Fetched(Next(c, s, step)) && f !in Next(c, s, step).done
    ensures BeingRead(Next(c, s, step), f)
  {
    var t := Next(c, s, step);
    if step.Fetch? && f == s.work[0] {
      assert t.workers[step.w] == Reading(f);
    } else {
      assert BeingRead(s, f);
      var w :| 0 <= w < |s.workers| && s.workers[w] == Reading(f);
      assert t.workers[w] == Reading(f);
    }
  }

  lemma PoolKept(c: Setup, s: State, step: Step)
    requires Inv(c, s) && Enabled(c, s, step)
    ensures Pool(c, Next(c, s, step))
  {
    hide Readers, BeingRead;
    var t := Next(c, s, step);
    forall f: nat | f < Fetched(t) && f !in t.done ensures BeingRead(t, f) {
      StillCovered(c, s, step, f);
    }
  }

  predicate IsReaderStep(step: Step) {
    || step.Receive? || step.WriteTaken? || step.WriteDirect? || step.Stop? || step.Fail? || step.Return?
    || step.Drain? || step.DrainRelease? || step.DrainEnd?
  }

  lemma ReadersLeftAlone(c: Setup, s: State, step: Step)
    requires Inv(c, s) && Enabled(c, s, step) && !IsReaderStep(step)
    ensures Readers(c, Next(c, s, step))
  {
    hide Wants, BeingRead;
  }

  lemma WriterMoves(c: Setup, s: State, step: Step)
    requires Inv(c, s) && Enabled(c, s, step)
    requires step.Receive? || step.WriteTaken? || step.WriteDirect? || step.Stop? || step.Fail? || step.Return?
    ensures Readers(c, Next(c, s, step))
  {
    hide Wants, Pool, Written;
    if s.writer.Writing? && s.writer.pc <= |c.ops| {
      WantsHead(c, s.writer.pc, Popped(s));
    }
  }

  lemma DrainerMoves(c: Setup, s: State, step: Step)
    requires Inv(c, s) && Enabled(c, s, step) && (step.Drain? || step.DrainRelease? || step.DrainEnd?)
    ensures Readers(c, Next(c, s, step))
  {
    hide Wants, Pool, Written;
  }

  lemma ReadersKept(c: Setup, s: State, step: Step)
    requires Inv(c, s) && Enabled(c, s, step)
    ensures Readers(c, Next(c, s, step))
  {
    hide Inv, Enabled, Next, Readers;
    if !IsReaderStep(step) {
      ReadersLeftAlone(c, s, step);
    } else if step.Drain? || step.DrainRelease? || step.DrainEnd? {
      DrainerMoves(c, s, step);
    } else {
      WriterMoves(c, s, step);
    }
  }

  lemma WantsHead(c: Setup, pc: nat, popped: nat)
    requires pc <= |c.ops| && popped <= |c.files| && Wants(c.ops[pc..]) == c.files[popped..]
    ensures pc == |c.ops| ==> popped == |c.files|
    ensures pc < |c.ops| && !c.ops[pc].Take? ==> Wants(c.ops[pc + 1..]) == c.files[popped..]
    ensures pc < |c.ops| && c.ops[pc].Take? ==>
      popped < |c.files| && c.ops[pc] == Take(c.files[popped]) && Wants(c.ops[pc + 1..]) == c.files[popped + 1..]
  {
    if pc < |c.ops| {
      assert c.ops[pc..][1..] == c.ops[pc + 1..];
      if c.ops[pc].Take? {
        assert c.files[popped..][0] == c.ops[pc].want;
        assert c.files[popped..][1..] == c.files[popped + 1..];
      }
    }
  }

  lemma StepKeepsInv(c: Setup, s: State, step: Step)
    requires Inv(c, s) && Enabled(c, s, step)
    ensures Inv(c, Next(c, s, step))
  {
    ChannelsKept(c, s, step);
    PoolKept(c, s, step);
    ReadersKept(c, s, step);
  }

  // ---- no deadlock ----

  /** As long as the dump is not over, some goroutine can move. */
  lemma Progress(c: Setup, s: State) returns (step: Step)
    requires Agreed(c) && Inv(c, s) && !Final(s)
    ensures Enabled(c, s, step)
  {
    if w :| 0 <= w < |s.workers| && s.workers[w].Reading? {
      step := Finish(w);
    } else if s.work != [] {
      assert s.workers[0] != Exited;
      step := Fetch(0);
    } else if s.handed < s.sent {
      step := Hand;
    } else if s.sent < |c.files| {
      assert forall f: nat :: f < s.sent ==> f in s.done;
      if |s.queue| < QueueDepth {
        step := Send;
      } else {
        step := ConsumerMoves(c, s);
      }
    } else if !s.workClosed {
      step := CloseWork;
    } else if w :| 0 <= w < |s.workers| && s.workers[w] == Idle {
      step := Exit(w);
    } else if !s.queueClosed {
      step := CloseQueue;
    } else {
      assert forall f: nat :: f < s.sent ==> f in s.done;
      step := ConsumerMoves(c, s);
    }
  }

  /** With everything sent so far read, and something to receive or nothing more to come,
      the writer or the drainer can move. */
  lemma ConsumerMoves(c: Setup, s: State) returns (step: Step)
    requires Inv(c, s) && !Final(s) && forall f: nat :: f < s.sent ==> f in s.done
    requires s.queue != [] || s.queueClosed
    requires s.queueClosed ==> forall w :: 0 <= w < |s.workers| ==> s.workers[w] == Exited
    ensures Enabled(c, s, step)
  {
    match s.writer
    case Writing(pc) =>
      WantsHead(c, pc, Popped(s));
      step := if pc == |c.ops| then Stop else if c.ops[pc].Take? then Receive
        else if Written(c.ops[pc]).Some? then WriteDirect else Fail;
    case Awaiting(pc, f) =>
      step := Fail;
    case Stopped(ok) =>
      step := if s.queueClosed then Return else if s.drainer.Awaits? then DrainRelease else Drain;
    case Returned(ok) =>
      step := if s.drainer.Awaits? then DrainRelease else if s.queue != [] then Drain else DrainEnd;
  }

  // ---- every run ends ----

  function NotExited(s: State): set<nat> {
    set w | 0 <= w < |s.workers| && s.workers[w] != Exited
  }

  function WriterRank(c: Setup, s: State): int {
    match s.writer
    case Writing(pc) => 2 + |c.ops| - pc
    case Awaiting(pc, _) => 2 + |c.ops| - pc
    case Stopped(_) => 1
    case Returned(_) => 0
  }

  /** Steps still to be taken. */
  function Rank(c: Setup, s: State): int {
    var n := |c.files|;
    (n - s.sent) + (n - s.handed) + (n - Fetched(s)) + (n - |s.done|) + (n - Popped(s)) + (n - |s.released|)
    + (if s.workClosed then 0 else 1) + (if s.queueClosed then 0 else 1) + |NotExited(s)|
    + WriterRank(c, s) + (if s.drainer == Drained then 0 else 1)
  }

  lemma {:induction false} Below(s: set<nat>, n: nat)
    requires forall f :: f in s ==> f < n
    ensures |s| <= n
  {
    if n == 0 {
      assert s == {};
    } else {
      Below(s - {n - 1}, n - 1);
    }
  }

  lemma RankIsNat(c: Setup, s: State)
    requires Inv(c, s)
    ensures 0 <= Rank(c, s)
  {
    Below(s.done, |c.files|);
    Below(s.released, |c.files|);
  }

  lemma ReadsCount(c: Setup, s: State, step: Step)
    requires Inv(c, s) && Enabled(c, s, step)
    ensures |Next(c, s, step).done| == |s.done| + if step.Finish? then 1 else 0
  {
    hide Channels, Readers, BeingRead, Wants;
  }

  lemma ReleasesCount(c: Setup, s: State, step: Step)
    requires Inv(c, s) && Enabled(c, s, step)
    ensures |Next(c, s, step).released| == |s.released|
      + if step.WriteTaken? || step.DrainRelease? || (step.Fail? && s.writer.Awaiting?) then 1 else 0
  {
    hide Channels, Pool, BeingRead, Wants;
  }

  lemma ExitsCount(c: Setup, s: State, step: Step)
    requires Inv(c, s) && Enabled(c, s, step)
    ensures |NotExited(Next(c, s, step))| == |NotExited(s)| - if step.Exit? then 1 else 0
  {
    hide Channels, Readers, Wants, BeingRead;
    var t := Next(c, s, step);
    if step.Exit? {
      assert NotExited(t) == NotExited(s) - {step.w};
    } else {
      assert NotExited(t) == NotExited(s);
    }
  }

  lemma WriterCounts(c: Setup, s: State, step: Step)
    requires Inv(c, s) && Enabled(c, s, step)
    ensures WriterRank(c, Next(c, s, step))
      <= WriterRank(c, s) - if step.WriteTaken? || step.WriteDirect? || step.Stop? || step.Fail?
        || step.Return? then 1 else 0
    ensures s.drainer == Drained ==> Next(c, s, step).drainer == Drained
  {
    hide Channels, Pool, Wants;
  }

  lemma StepLowersRank(c: Setup, s: State, step: Step)
    requires Inv(c, s) && Enabled(c, s, step)
    ensures Rank(c, Next(c, s, step)) < Rank(c, s)
  {
    hide Inv, NotExited, WriterRank;
    WriterCounts(c, s, step);
    ReadsCount(c, s, step);
    ReleasesCount(c, s, step);
    ExitsCount(c, s, step);
  }

  ghost predicate Run(c: Setup, states: seq<State>, steps: seq<Step>) {
    && |states| == |steps| + 1 && states[0] == Initial(c)
    && forall i :: 0 <= i < |steps| ==> Enabled(c, states[i], steps[i]) && states[i + 1] == Next(c, states[i], steps[i])
  }

  lemma {:induction false} RunKeepsInv(c: Setup, states: seq<State>, steps: seq<Step>, k: nat)
    requires Agreed(c) && Run(c, states, steps) && k <= |steps|
    ensures Inv(c, states[k]) && 0 <= Rank(c, states[k]) <= Rank(c, Initial(c)) - k
  {
    if k == 0 {
      InitialInv(c);
    } else {
      RunKeepsInv(c, states, steps, k - 1);
      StepKeepsInv(c, states[k - 1], steps[k - 1]);
      StepLowersRank(c, states[k - 1], steps[k - 1]);
    }
    RankIsNat(c, states[k]);
  }

  /** No run of a dump is longer than 6 steps a file, one an operation, and a constant; and a run
      that cannot be continued has ended: the dump returned, every goroutine is gone, and
      every buffer is back. */
  lemma EveryRunEnds(c: Setup, states: seq<State>, steps: seq<Step>)
    requires Agreed(c) && Run(c, states, steps)
    ensures |steps| <= 6 * |c.files| + |c.ops| + c.workers + 5
    ensures var last := states[|steps|];
            (forall step :: !Enabled(c, last, step)) ==>
              Final(last) && forall f: nat :: f < |c.files| ==> f in last.released
  {
    var last := states[|steps|];
    RunKeepsInv(c, states, steps, |steps|);
    Below(NotExited(Initial(c)), c.workers);
    if !Final(last) {
      var step := Progress(c, last);
    }
  }

  // ---- order ----

  /** From s to t the writer received the file it was at. */
  ghost predicate GetsItsFile(c: Setup, s: State, t: State) {
    && s.writer.Writing? && s.writer.pc < |c.ops| && t.writer.Awaiting? && t.writer.file < |c.files|
    && c.ops[s.writer.pc] == Take(c.files[t.writer.file])
  }

  /** Whenever the writer is handed a file, it is the file it wants. */
  lemma ReceivedIsWanted(c: Setup, states: seq<State>, steps: seq<Step>, k: nat)
    requires Agreed(c) && Run(c, states, steps) && k < |steps| && steps[k] == Receive
    ensures GetsItsFile(c, states[k], states[k + 1])
  {
    RunKeepsInv(c, states, steps, k);
    WantsHead(c, states[k].writer.pc, Popped(states[k]));
  }

  // ---- memory ----

  /** The files that may own a buffer: being read, or read without error and not released. */
  ghost function Held(c: Setup, s: State): set<nat> {
    set f | 0 <= f < |c.files| && f !in s.released && (BeingRead(s, f) || (f in s.done && c.files[f].data.Some?))
  }

  lemma {:induction false} Between(s: set<nat>, lo: nat, hi: nat)
    requires forall f :: f in s ==> lo <= f < hi
    ensures |s| <= if lo <= hi then hi - lo else 0
    decreases hi
  {
    if lo >= hi {
      assert s == {};
    } else {
      Between(s - {hi - 1}, lo, hi - 1);
    }
  }

  /** Never more than one buffer beyond the depth of the queue. */
  lemma BuffersBounded(c: Setup, states: seq<State>, steps: seq<Step>, k: nat)
    requires Agreed(c) && Run(c, states, steps) && k <= |steps|
    ensures |Held(c, states[k])| <= 129
  {
    RunKeepsInv(c, states, steps, k);
    var s := states[k];
    var lo := if Popped(s) > 0 then Popped(s) - 1 else 0;
    forall f | f in Held(c, s) ensures lo <= f < Fetched(s) {
      if BeingRead(s, f) {
        var w :| 0 <= w < |s.workers| && s.workers[w] == Reading(f);
      }
    }
    Between(Held(c, s), lo, Fetched(s));
  }

  // ---- the dump of a walked tree ----

  /** For every tree that was walked and every pool: a run of its dump is bounded by the
      tree's size, hands the writer the file it is at each time it receives one, owns at
      most 129 buffers at any moment, and, when it cannot go on, has returned,
      left no goroutine and released the buffer of every small file. */
  lemma DumpRunsWell(root: Walked, workers: nat, states: seq<State>, steps: seq<Step>)
    requires workers > 0 && Run(DumpOf(root, workers), states, steps)
    ensures |steps| <= 6 * |SmallFiles(root)| + |DumpOps(root)| + workers + 5
    ensures forall k :: 0 <= k < |steps| && steps[k] == Receive ==>
      GetsItsFile(DumpOf(root, workers), states[k], states[k + 1])
    ensures forall k :: 0 <= k <= |steps| ==> |Held(DumpOf(root, workers), states[k])| <= 129
    ensures var last := states[|steps|];
            (forall step :: !Enabled(DumpOf(root, workers), last, step)) ==>
              Final(last) && forall f: nat :: f < |SmallFiles(root)| ==> f in last.released
  {
    hide Held, Enabled, GetsItsFile, DumpOps, SmallFiles;
    var c := DumpOf(root, workers);
    EveryRunEnds(c, states, steps);
    forall k | 0 <= k < |steps| && steps[k] == Receive ensures GetsItsFile(c, states[k], states[k + 1]) {
      ReceivedIsWanted(c, states, steps, k);
    }
    forall k | 0 <= k <= |steps| ensures |Held(c, states[k])| <= 129 {
      BuffersBounded(c, states, steps, k);
    }
  }

  // ---- what is written ----

  /** What a sequence of operations writes; None if some file cannot be read. */
  function Output(ops: seq<Op>): Option<seq<Bytes>> {
    if ops == [] then Some([])
    else
      match Output(ops[..|ops| - 1])
      case None => None
      case Some(before) =>
        match Written(ops[|ops| - 1]) case None => None case Some(last) => Some(before + last)
  }

  lemma {:induction false} OutputConcat(a: seq<Op>, b: seq<Op>)
    ensures Output(a + b) == match Output(a)
                             case None => None
                             case Some(x) => match Output(b) case None => None case Some(y) => Some(x + y)
  {
    hide Written;
    if b == [] {
      assert a + b == a;
      if Output(a).Some? { assert Output(a).value + [] == Output(a).value; }
    } else {
      var init := b[..|b| - 1];
      OutputConcat(a, init);
      assert (a + b)[..|a + b| - 1] == a + init;
      if Output(a).Some? && Output(b).Some? {
        assert Output(a).value + (Output(init).value + Written(b[|b| - 1]).value)
            == Output(a).value + Output(init).value + Written(b[|b| - 1]).value;
      }
    }
  }

  lemma OutputOne(op: Op)
    ensures Output([op]) == Written(op)
  {
    assert [op][..0] == [];
    if Written(op).Some? { assert [] + Written(op).value == Written(op).value; }
  }

  /** The writer's operations write the tree exactly if its files can be read. */
  lemma {:induction false} OpsWriteTree(n: Walked)
    ensures Output(Ops(n)) == if Contents(n).Some? then Some(Tokens(Contents(n).value)) else None
    decreases n, 0
  {
    hide Output, RegularHead;
    match n
    case WFile(path, size, executable, data) =>
      var head, file := Direct(RegularHead(executable)), ReadFile(path, size, data);
      var body := if ShouldPrefetch(n) then Take(file) else Stream(file);
      OutputOne(head);
      OutputOne(body);
      OutputConcat([head], [body]);
    case WLink(target) =>
      OutputOne(Direct(["type", "symlink", "target", target]));
    case WDir(children) =>
      var head := Direct(["type", "directory"]);
      OutputOne(head);
      AllOpsWriteEntries(children);
      OutputConcat([head], AllOps(children));
  }

  lemma {:induction false} AllOpsWriteEntries(children: seq<Child>)
    ensures Output(AllOps(children))
      == if ChildContents(children).Some? then Some(EntriesTokens(ChildContents(children).value)) else None
    decreases children, 1
  {
    if children == [] {
    } else {
      hide Output;
      var open, close := Direct(EntryHead(children[0].name)), Direct([")", ")"]);
      var one, rest := Ops(children[0].node), AllOps(children[1..]);
      OutputOne(open);
      OutputOne(close);
      OpsWriteTree(children[0].node);
      AllOpsWriteEntries(children[1..]);
      OutputConcat([open], one);
      OutputConcat([open] + one, [close]);
      OutputConcat([open] + one + [close], rest);
    }
  }

  lemma DumpWritesArchive(root: Walked)
    ensures Output(DumpOps(root)) == if Contents(root).Some? then Some(ArchiveTokens(Contents(root).value)) else None
  {
    hide Output, Tokens;
    var open, close := Direct(["nix-archive-1", "("]), Direct([")"]);
    OutputOne(open);
    OutputOne(close);
    OpsWriteTree(root);
    OutputConcat([open], Ops(root));
    OutputConcat([open] + Ops(root), [close]);
  }

  /** As long as nothing has failed, everything before the writer's place was written. */
  ghost predicate WrittenSoFar(c: Setup, s: State) {
    match s.writer
    case Writing(pc) => pc <= |c.ops| && Output(c.ops[..pc]).Some?
    case Awaiting(pc, _) => pc <= |c.ops| && Output(c.ops[..pc]).Some?
    case Stopped(ok) => ok ==> Output(c.ops).Some?
    case Returned(ok) => ok ==> Output(c.ops).Some?
  }

  lemma OutputMore(ops: seq<Op>, pc: nat)
    requires pc < |ops| && Output(ops[..pc]).Some? && Written(ops[pc]).Some?
    ensures Output(ops[..pc + 1]).Some?
  {
    assert ops[..pc + 1][..pc] == ops[..pc];
  }

  lemma StepWrites(c: Setup, s: State, step: Step)
    requires Inv(c, s) && Enabled(c, s, step) && WrittenSoFar(c, s)
    ensures WrittenSoFar(c, Next(c, s, step))
  {
    hide Channels, Pool, Wants, Output;
    if step.WriteTaken? || step.WriteDirect? {
      OutputMore(c.ops, s.writer.pc);
    }
    assert c.ops[..|c.ops|] == c.ops;
  }

  ghost predicate Failed(s: State) {
    (s.writer.Stopped? || s.writer.Returned?) && !s.writer.ok
  }

  lemma StepFails(c: Setup, s: State, step: Step)
    requires Enabled(c, s, step)
    ensures Failed(Next(c, s, step)) <==> Failed(s) || step.Fail?
  {
  }

  lemma {:induction false} RunWrites(c: Setup, states: seq<State>, steps: seq<Step>, k: nat)
    requires Agreed(c) && Run(c, states, steps) && k <= |steps|
    ensures WrittenSoFar(c, states[k]) && (Failed(states[k]) <==> Fail in steps[..k])
  {
    hide Inv, Enabled, Next, WrittenSoFar, Failed, Agreed, Initial;
    if k > 0 {
      RunWrites(c, states, steps, k - 1);
      RunKeepsInv(c, states, steps, k - 1);
      StepWrites(c, states[k - 1], steps[k - 1]);
      StepFails(c, states[k - 1], steps[k - 1]);
      assert steps[..k] == steps[..k - 1] + [steps[k - 1]];
    } else {
      NothingWrittenYet(c);
    }
  }

  lemma NothingWrittenYet(c: Setup)
    ensures WrittenSoFar(c, Initial(c)) && !Failed(Initial(c))
  {
    assert c.ops[..0] == [];
  }

  /** A run of a dump that is over has returned success exactly if every file could be read
      and nothing failed; then its operations, all done in order, have written the archive
      of the tree. */
  lemma DumpSucceedsIff(root: Walked, workers: nat, states: seq<State>, steps: seq<Step>)
    requires workers > 0 && Run(DumpOf(root, workers), states, steps) && Final(states[|steps|])
    ensures states[|steps|].writer.ok <==> Contents(root).Some? && Fail !in steps
    ensures states[|steps|].writer.ok ==>
      Output(DumpOps(root)).Some? && Encode(Output(DumpOps(root)).value) == Dump(Contents(root).value)
  {
    hide Output, Contents, Encode, Inv;
    RunWrites(DumpOf(root, workers), states, steps, |steps|);
    assert steps[..|steps|] == steps;
    DumpWritesArchive(root);
  }

  // ---- the bound is reached ----

  ghost predicate Reachable(c: Setup, s: State) {
    exists states, steps :: Run(c, states, steps) && states[|steps|] == s
  }

  lemma ReachStep(c: Setup, s: State, step: Step)
    requires Reachable(c, s) && Enabled(c, s, step)
    ensures Reachable(c, Next(c, s, step))
  {
    hide Enabled, Next, Initial;
    var states, steps :| Run(c, states, steps) && states[|steps|] == s;
    var states', steps' := states + [Next(c, s, step)], steps + [step];
    assert Run(c, states', steps') && states'[|steps'|] == Next(c, s, step);
  }

  /** n more files sent, handed over and read. */
  function ReadOn(s: State, n: nat): State {
    if n == 0 then s
    else
      var t := ReadOn(s, n - 1);
      t.(sent := t.sent + 1, handed := t.handed + 1, queue := t.queue + [t.sent], done := t.done + {t.sent})
  }

  /** Nothing between the channels and the files, and every worker waiting. */
  predicate Quiet(s: State) {
    s.sent == s.handed && s.work == [] && s.workers != [] && forall w :: 0 <= w < |s.workers| ==> s.workers[w] == Idle
  }

  lemma {:induction false} ReadOnReached(c: Setup, s: State, n: nat)
    requires Reachable(c, s) && Quiet(s) && s.sent + n <= |c.files| && |s.queue| + n <= QueueDepth
    ensures var t := ReadOn(s, n);
      && Reachable(c, t) && Quiet(t) && t.writer == s.writer && t.released == s.released
      && t.sent == s.sent + n && |t.queue| == |s.queue| + n
      && (forall f :: f in t.done <==> f in s.done || s.sent <= f < s.sent + n)
  {
    if n > 0 {
      ReadOnReached(c, s, n - 1);
      ReadOneMore(c, ReadOn(s, n - 1));
    }
  }

  lemma ReadOneMore(c: Setup, s: State)
    requires Reachable(c, s) && Quiet(s) && s.sent < |c.files| && |s.queue| < QueueDepth
    ensures Reachable(c,
      s.(sent := s.sent + 1, handed := s.handed + 1, queue := s.queue + [s.sent], done := s.done + {s.sent}))
  {
    hide Reachable;
    var f := s.sent;
    ReachStep(c, s, Send);
    var s1 := s.(sent := f + 1, queue := s.queue + [f]);
    ReachStep(c, s1, Hand);
    assert s1.work + [f] == [f];
    var s2 := s1.(handed := f + 1, work := [f]);
    ReachStep(c, s2, Fetch(0));
    var s3 := s2.(work := [], workers := s.workers[0 := Reading(f)]);
    assert [f][1..] == [];
    ReachStep(c, s3, Finish(0));
    assert s.workers[0 := Reading(f)][0 := Idle] == s.workers;
  }

  /** Up to the first small file, everything can be written. */
  predicate LeadsIn(ops: seq<Op>) {
    ops == [] || ops[0].Take? || (Written(ops[0]).Some? && LeadsIn(ops[1..]))
  }

  lemma {:induction false} DirectsWritten(c: Setup, s: State, pc: nat)
    requires Reachable(c, s) && s.writer == Writing(0) && pc <= |c.ops|
    requires forall i :: 0 <= i < pc ==> !c.ops[i].Take? && Written(c.ops[i]).Some?
    ensures Reachable(c, s.(writer := Writing(pc)))
  {
    hide Reachable, Written;
    if pc > 0 {
      DirectsWritten(c, s, pc - 1);
      ReachStep(c, s.(writer := Writing(pc - 1)), WriteDirect);
    } else {
      assert s.(writer := Writing(0)) == s;
    }
  }

  lemma {:induction false} FirstTake(ops: seq<Op>) returns (pc: nat)
    requires Wants(ops) != [] && LeadsIn(ops)
    ensures pc < |ops| && ops[pc].Take? && forall i :: 0 <= i < pc ==> !ops[i].Take? && Written(ops[i]).Some?
  {
    hide Written;
    if ops[0].Take? {
      pc := 0;
    } else {
      var p := FirstTake(ops[1..]);
      pc := p + 1;
      forall i | 0 <= i < pc ensures !ops[i].Take? && Written(ops[i]).Some? {
        if i > 0 { assert ops[i] == ops[1..][i - 1]; }
      }
    }
  }

  function FirstFiles(n: nat): (r: set<nat>)
    ensures |r| == n && forall f :: f in r <==> 0 <= f < n
  {
    if n == 0 then {} else FirstFiles(n - 1) + {n - 1}
  }

  /** The first file has been read, and the writer has received it. */
  lemma FirstReceived(c: Setup) returns (s: State)
    requires Agreed(c) && |c.files| > 0 && LeadsIn(c.ops)
    ensures Reachable(c, s) && Quiet(s) && s.sent == 1 && s.queue == [] && s.released == {} && s.done == {0}
  {
    hide Reachable, Run, ReadOn;
    var start := Initial(c);
    StartReached(c);
    ReadOneMore(c, start);
    var one := start.(sent := 1, handed := 1, queue := [] + [0], done := {} + {0});
    var pc := FirstTake(c.ops);
    DirectsWritten(c, one, pc);
    var ready := one.(writer := Writing(pc));
    ReachStep(c, ready, Receive);
    s := Next(c, ready, Receive);
  }

  /** The bound is exact, one more than prefetchQueueDepth: any dump of at least 129 readable
      small files, with no unreadable file before them, can own 129 buffers at once,
        while the writer holds the first of them. */
  lemma BoundIsReached(c: Setup) returns (s: State)
    requires Agreed(c) && LeadsIn(c.ops) && |c.files| >= 129
    requires forall f :: 0 <= f < |c.files| ==> c.files[f].data.Some?
    ensures Reachable(c, s) && |Held(c, s)| == 129
  {
    hide Reachable, Run, ReadOn, Wants;
    var holding := FirstReceived(c);
    ReadOnReached(c, holding, QueueDepth);
    s := ReadOn(holding, QueueDepth);
    AllHeld(c, s, QueueDepth + 1);
  }

  lemma AllHeld(c: Setup, s: State, n: nat)
    requires |c.files| >= n && forall f :: 0 <= f < |c.files| ==> c.files[f].data.Some?
    requires Quiet(s) && s.released == {} && forall f: nat :: f in s.done <==> f < n
    ensures |Held(c, s)| == n
  {
    assert Held(c, s) == FirstFiles(n);
  }

  lemma StartReached(c: Setup)
    ensures Reachable(c, Initial(c))
  {
    assert Run(c, [Initial(c)], []);
  }
}
