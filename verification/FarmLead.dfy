/** Electing the build farm's scheduler. A candidate keeps a stream open; while it holds a
    database lock it is told, every heartbeat, that it leads. Times are nanoseconds. */
module FarmLead {

  const Second: nat := 1_000_000_000
  const LeadPingTimeoutFloor: nat := Second
  const LeadHeartbeat: nat := 5 * Second

  /** Heartbeat and ping timeout. */
  datatype Timing = Timing(heartbeat: nat, pingTimeout: nat)

  function LeadPingTimeout(heartbeat: nat): nat {
    if heartbeat / 2 > LeadPingTimeoutFloor then heartbeat / 2 else LeadPingTimeoutFloor
  }

  function AnnounceDelay(c: Timing, incumbent: bool): nat {
    if incumbent then 0 else c.heartbeat + c.pingTimeout
  }

  // ---- the outside ----

  datatype Reply = Reply(ok: bool, at: nat)

  /** What an attempt to take the lock gives: the lock, a refusal, or an error. */
  datatype Lock = Got | Refused | Failed

  datatype Attempt = Attempt(lock: Lock, at: nat)

  /** What one stream meets: the answer to an attempt to take the lock (and when the lock was
      taken), to a ping of the lock connection, and to a write to the client, each by the
      time it was begun; and when the database lets go of the lock. */
  datatype World = World(
    tryLead: nat -> Attempt,
    lockedAt: nat -> nat,
    ping: nat -> Reply,
    send: nat -> Reply,
    cancelled: nat -> bool,
    lost: nat)

  /** A ping ends within its timeout and succeeds only on a connection that still holds the
      lock when it is begun; a write takes at most `write`. */
  ghost predicate Plausible(c: Timing, write: nat, w: World) {
    && (forall t: nat :: t <= w.lockedAt(t) <= w.tryLead(t).at)
    && (forall t: nat :: t <= w.ping(t).at <= t + c.pingTimeout)
    && (forall t: nat :: w.ping(t).ok ==> t <= w.lost)
    && (forall t: nat :: t <= w.send(t).at <= t + write)
  }

  // ---- the ticker ----

  /** The first tick of a ticker begun at `since` that comes after t. */
  function FirstTickAfter(since: nat, heartbeat: nat, t: nat): nat
    requires heartbeat > 0 && since <= t
  {
    since + ((t - since) / heartbeat + 1) * heartbeat
  }

  /** Ticks come at whole heartbeats from the start, however late the last one was taken; this
      is the first of them after t. */
  lemma TickIs(since: nat, heartbeat: nat, t: nat, tick: nat)
    requires heartbeat > 0 && since <= t
    ensures tick == FirstTickAfter(since, heartbeat, t)
      <==> t < tick <= t + heartbeat && exists k: nat :: tick == since + k * heartbeat
  {
    TickComes(since, heartbeat, t);
    var n := (t - since) / heartbeat + 1;
    assert FirstTickAfter(since, heartbeat, t) == since + n * heartbeat;
    if k: nat :| t < tick <= t + heartbeat && tick == since + k * heartbeat {
      SameMultiple(n, k, heartbeat, t - since);
    }
  }

  lemma SameMultiple(n: nat, k: nat, h: nat, d: nat)
    requires h > 0 && d < n * h <= d + h && d < k * h <= d + h
    ensures n == k
  {
    if n < k {
      MoreTimes(n + 1, k, h);
    } else if k < n {
      MoreTimes(k + 1, n, h);
    }
  }

  lemma {:induction false} MoreTimes(m: nat, n: nat, h: nat)
    requires m <= n
    ensures m * h <= n * h
  {
    if m < n { MoreTimes(m, n - 1, h); }
  }

  lemma TickComes(since: nat, heartbeat: nat, t: nat)
    requires heartbeat > 0 && since <= t
    ensures t < FirstTickAfter(since, heartbeat, t) <= t + heartbeat
  {
    var q := (t - since) / heartbeat;
    assert t - since == q * heartbeat + (t - since) % heartbeat;
    assert (q + 1) * heartbeat == q * heartbeat + heartbeat;
  }

  // ---- one stream ----

  datatype Report = Report(at: nat, lead: bool)

  /** conn: the lock is held, as far as the handler knows; received: when the last tick was
      taken from the ticker's channel of capacity one. */
  datatype Stream = Stream(
    now: nat, received: nat, conn: bool, locked: nat, announceAt: nat, reports: seq<Report>, open: bool)

  datatype Request = Request(since: nat, holdBack: nat, incumbent: bool)

  function Opened(r: Request): Stream {
    Stream(r.since, r.since, false, 0, 0, [], true)
  }

  function Acquire(c: Timing, r: Request, w: World, s: Stream): Stream {
    if !s.conn && s.now >= r.holdBack then
      var reply := w.tryLead(s.now);
      var t := s.(now := reply.at, open := !reply.lock.Failed?);
      if reply.lock.Got? then t.(conn := true, locked := w.lockedAt(s.now),
          announceAt := reply.at + AnnounceDelay(c, r.incumbent)) else t
    else if s.conn then
      var reply := w.ping(s.now);
      s.(now := reply.at, open := reply.ok)
    else s
  }

  function Announce(w: World, s: Stream): Stream {
    var sent := w.send(s.now);
    s.(reports := s.reports + [Report(s.now, s.conn && s.now >= s.announceAt)], now := sent.at, open := sent.ok)
  }

  /** The channel keeps one tick: if one came since the last was taken, it is there. */
  function AwaitTick(c: Timing, r: Request, w: World, s: Stream): Stream
    requires c.heartbeat > 0 && r.since <= s.received
  {
    if w.cancelled(s.now) then s.(open := false)
    else
      var tick := FirstTickAfter(r.since, c.heartbeat, s.received);
      var t := if tick > s.now then tick else s.now;
      s.(now := t, received := t)
  }

  function Round(c: Timing, r: Request, w: World, s: Stream): (t: Stream)
    requires c.heartbeat > 0 && r.since <= s.received
    ensures r.since <= t.received
  {
    var a := Acquire(c, r, w, s);
    if !a.open then a
    else
      var b := Announce(w, a);
      if !b.open then b
      else
        TickComes(r.since, c.heartbeat, b.received);
        AwaitTick(c, r, w, b)
  }

  /** The stream after at most n rounds. */
  function After(c: Timing, r: Request, w: World, n: nat): (s: Stream)
    requires c.heartbeat > 0
    ensures r.since <= s.received
  {
    if n == 0 then Opened(r)
    else
      var s := After(c, r, w, n - 1);
      if s.open then Round(c, r, w, s) else s
  }

  /** The handler's loop, for its first n rounds. */
  method LeadHandler(c: Timing, r: Request, w: World, n: nat) returns (s: Stream)
    requires c.heartbeat > 0
    ensures s == After(c, r, w, n)
  {
    hide FirstTickAfter, After, AnnounceDelay;
    NoRounds(c, r, w);
    var now: nat, received: nat, conn, locked: nat, announceAt: nat := r.since, r.since, false, 0, 0;
    var reports: seq<Report> := [];
    for i := 0 to n
      invariant r.since <= received
      invariant Stream(now, received, conn, locked, announceAt, reports, true) == After(c, r, w, i)
    {
      OneMoreRound(c, r, w, i);
      if !conn && now >= r.holdBack {
        var reply := w.tryLead(now);
        if reply.lock.Got? {
          conn, locked, announceAt := true, w.lockedAt(now), reply.at + AnnounceDelay(c, r.incumbent);
        }
        now := reply.at;
        if reply.lock.Failed? {
          StaysClosed(c, r, w, i + 1, n);
          return Stream(now, received, conn, locked, announceAt, reports, false);
        }
      } else if conn {
        var reply := w.ping(now);
        now := reply.at;
        if !reply.ok {
          StaysClosed(c, r, w, i + 1, n);
          return Stream(now, received, conn, locked, announceAt, reports, false);
        }
      }
      reports := reports + [Report(now, conn && now >= announceAt)];
      var sent := w.send(now);
      now := sent.at;
      if !sent.ok || w.cancelled(now) {
        StaysClosed(c, r, w, i + 1, n);
        return Stream(now, received, conn, locked, announceAt, reports, false);
      }
      TickComes(r.since, c.heartbeat, received);
      var tick := FirstTickAfter(r.since, c.heartbeat, received);
      now := if tick > now then tick else now;
      received := now;
    }
    s := Stream(now, received, conn, locked, announceAt, reports, true);
  }

  lemma NoRounds(c: Timing, r: Request, w: World)
    requires c.heartbeat > 0
    ensures After(c, r, w, 0) == Opened(r)
  {
  }

  lemma OneMoreRound(c: Timing, r: Request, w: World, n: nat)
    requires c.heartbeat > 0 && After(c, r, w, n).open
    ensures After(c, r, w, n + 1) == Round(c, r, w, After(c, r, w, n))
  {
  }

  lemma {:induction false} StaysClosed(c: Timing, r: Request, w: World, m: nat, n: nat)
    requires c.heartbeat > 0 && m <= n && !After(c, r, w, m).open
    ensures After(c, r, w, n) == After(c, r, w, m)
  {
    if m < n { StaysClosed(c, r, w, m, n - 1); }
  }

  /** The report of the round that takes the lock says that an incumbent leads, and of anyone
      else that it does not yet. */
  lemma IncumbentLeadsAtOnce(c: Timing, r: Request, w: World, s: Stream)
    requires c.heartbeat > 0 && r.since <= s.received && s.open && !s.conn && s.now >= r.holdBack
    requires w.tryLead(s.now).lock.Got?
    ensures Round(c, r, w, s).reports == s.reports + [Report(w.tryLead(s.now).at, r.incumbent)]
  {
    TickComes(r.since, c.heartbeat, s.received);
  }

  // ---- how long a leader outlives its lock ----

  ghost predicate Announced(s: Stream) {
    exists i :: 0 <= i < |s.reports| && s.reports[i].lead
  }

  /** Reports of leadership come only after the delay; and a stream that has announced is no
      further than a heartbeat past the loss of its lock, plus a ping timeout once closed. */
  ghost predicate Fresh(c: Timing, r: Request, w: World, s: Stream) {
    && (s.open ==> s.received == s.now)
    && (s.conn ==> s.locked + AnnounceDelay(c, r.incumbent) <= s.announceAt)
    && (forall i :: 0 <= i < |s.reports| && s.reports[i].lead ==> s.conn && s.announceAt <= s.reports[i].at)
    && (Announced(s) ==> s.now <= w.lost + c.heartbeat + if s.open then 0 else c.pingTimeout)
  }

  lemma OneMoreReport(s: Stream, report: Report)
    ensures Announced(s.(reports := s.reports + [report])) <==> Announced(s) || report.lead
  {
    var t := s.(reports := s.reports + [report]);
    if Announced(s) {
      var i :| 0 <= i < |s.reports| && s.reports[i].lead;
      assert t.reports[i].lead;
    }
    if report.lead { assert t.reports[|s.reports|].lead; }
  }

  /** A round without the lock at its start: it may take the lock, but announces nothing. */
  lemma QuietRound(c: Timing, write: nat, r: Request, w: World, s: Stream)
    requires c.heartbeat > 0 && r.since <= s.received && Plausible(c, write, w) && !r.incumbent
    requires Fresh(c, r, w, s) && s.open && !s.conn
    ensures Fresh(c, r, w, Round(c, r, w, s))
  {
    var a := Acquire(c, r, w, s);
    OneMoreReport(a, Report(a.now, false));
    TickComes(r.since, c.heartbeat, a.received);
  }

  /** A round with the lock: a ping shows that it was still held, or ends the stream. */
  lemma LeadingRound(c: Timing, write: nat, r: Request, w: World, s: Stream)
    requires c.heartbeat > 0 && r.since <= s.received && Plausible(c, write, w) && c.pingTimeout + write <= c.heartbeat
    requires Fresh(c, r, w, s) && s.open && s.conn
    ensures Fresh(c, r, w, Round(c, r, w, s))
  {
    var a := Acquire(c, r, w, s);
    assert a.now <= s.now + c.pingTimeout;
    if a.open {
      OneMoreReport(a, Report(a.now, a.now >= a.announceAt));
      TickComes(r.since, c.heartbeat, a.received);
      assert s.now <= w.lost;
      var b := Announce(w, a);
      assert b.now <= s.now + c.heartbeat;
    }
  }

  lemma {:induction false} AlwaysFresh(c: Timing, write: nat, r: Request, w: World, n: nat)
    requires c.heartbeat > 0 && Plausible(c, write, w) && !r.incumbent && c.pingTimeout + write <= c.heartbeat
    ensures Fresh(c, r, w, After(c, r, w, n))
  {
    hide Fresh, Plausible, Round, Acquire, Announce, AwaitTick;
    if n == 0 {
      StartsFresh(c, r, w);
    } else {
      AlwaysFresh(c, write, r, w, n - 1);
      var s := After(c, r, w, n - 1);
      if s.open {
        if s.conn { LeadingRound(c, write, r, w, s); } else { QuietRound(c, write, r, w, s); }
      }
    }
  }

  lemma StartsFresh(c: Timing, r: Request, w: World)
    ensures Fresh(c, r, w, Opened(r))
  {
  }

  // ---- never two leaders ----

  /** At some moment both streams are open and have announced. */
  ghost predicate BothLead(s: Stream, t: Stream) {
    exists i, j :: 0 <= i < |s.reports| && 0 <= j < |t.reports| && s.reports[i].lead && t.reports[j].lead
      && s.reports[i].at < t.now && t.reports[j].at < s.now
  }

  /** The two streams' locks do not overlap: the second was taken when the first was free. */
  ghost predicate Succeeds(w: World, t: Stream) {
    t.conn ==> w.lost <= t.locked
  }

  /** A successor that was not the incumbent announces only when its predecessor is gone. */
  lemma NeverBoth(c: Timing, write: nat, r: Request, v: World, m: nat, q: Request, w: World, n: nat)
    requires c.heartbeat > 0 && c.pingTimeout + write <= c.heartbeat
    requires Plausible(c, write, v) && Plausible(c, write, w) && !r.incumbent && !q.incumbent
    requires Succeeds(v, After(c, q, w, n))
    ensures !BothLead(After(c, r, v, m), After(c, q, w, n))
  {
    AlwaysFresh(c, write, r, v, m);
    AlwaysFresh(c, write, q, w, n);
  }

  /** Leadership never overlaps, whatever the database and the network do. */
  ghost predicate Exclusive(c: Timing, write: nat)
    requires c.heartbeat > 0
  {
    forall r: Request, v: World, m: nat, q: Request, w: World, n: nat ::
      Plausible(c, write, v) && Plausible(c, write, w) && !r.incumbent && !q.incumbent
        && Succeeds(v, After(c, q, w, n)) ==>
        !BothLead(After(c, r, v, m), After(c, q, w, n))
  }

  // ---- when it would fail ----

  /** Pings take their whole timeout, and writes, but for the first, their whole time; the
      lock is lost just after the ping at `lost` has begun. */
  function SlowWorld(c: Timing, start: nat, write: nat, lost: nat): World {
    World((t: nat) => Attempt(Got, t), (t: nat) => t, (t: nat) => Reply(t <= lost, t + c.pingTimeout),
          (t: nat) => Reply(true, if t == start then t else t + write), (t: nat) => false, lost)
  }

  /** Two rounds of a stream that gets the lock at once and whose ping succeeds: the second
      report says that it leads. */
  lemma TwoSlowRounds(c: Timing, start: nat, write: nat, lost: nat)
    requires c.heartbeat > 0 && start + c.heartbeat <= lost
    ensures var h, p := c.heartbeat, c.pingTimeout;
            var s := After(c, Request(start, start, false), SlowWorld(c, start, write, lost), 2);
            && s.open && s.conn && s.locked == start && s.announceAt == start + h + p
            && s.reports == [Report(start, false), Report(start + h + p, true)]
            && s.received == s.now == if p + write > h then start + h + p + write else start + 2 * h
  {
    hide FirstTickAfter;
    var h, p := c.heartbeat, c.pingTimeout;
    var r, w := Request(start, start, false), SlowWorld(c, start, write, lost);
    TickAfterTicks(start, h);
    assert After(c, r, w, 0) == Opened(r);
    var s1 := After(c, r, w, 1);
    assert s1 == Stream(start + h, start + h, true, start, start + h + p, [Report(start, false)], true);
    var s2 := After(c, r, w, 2);
    assert s2 == Round(c, r, w, s1);
    assert [Report(start, false)] + [Report(start + h + p, true)]
      == [Report(start, false), Report(start + h + p, true)];
  }

  lemma TickAfterTicks(start: nat, h: nat)
    requires h > 0
    ensures FirstTickAfter(start, h, start) == start + h && FirstTickAfter(start, h, start + h) == start + 2 * h
  {
    assert (start + h - start) / h == 1;
  }

  lemma SlowIsPlausible(c: Timing, start: nat, write: nat, lost: nat)
    ensures Plausible(c, write, SlowWorld(c, start, write, lost))
  {
  }

  /** The old leader's last good ping and its report take longer than a heartbeat together: it
      starts the ping that fails so late that its successor has announced meanwhile. */
  lemma SlowLeaderOverlaps(c: Timing, write: nat)
    requires c.heartbeat > 0 && c.pingTimeout + write > c.heartbeat
    ensures !Exclusive(c, write)
  {
    hide FirstTickAfter, Plausible;
    var h, p := c.heartbeat, c.pingTimeout;
    var r, v := Request(0, 0, false), SlowWorld(c, 0, write, h);
    var q, w := Request(h, h, false), SlowWorld(c, h, write, 2 * h);
    TwoSlowRounds(c, 0, write, h);
    TwoSlowRounds(c, h, write, 2 * h);
    SlowIsPlausible(c, 0, write, h);
    SlowIsPlausible(c, h, write, 2 * h);
    var s2, t := After(c, r, v, 2), After(c, q, w, 2);
    var s := After(c, r, v, 3);
    assert s == s2.(now := s2.now + p, open := false);
    assert s.reports[1].lead && t.reports[1].lead;
    assert s.reports[1].at < t.now && t.reports[1].at < s.now;
    assert BothLead(s, t);
  }

  /** Two leaders are excluded exactly when a ping and a write fit into a heartbeat. */
  lemma ExclusiveIff(c: Timing, write: nat)
    requires c.heartbeat > 0
    ensures Exclusive(c, write) <==> c.pingTimeout + write <= c.heartbeat
  {
    hide Plausible, BothLead, Succeeds;
    if c.pingTimeout + write > c.heartbeat {
      SlowLeaderOverlaps(c, write);
    } else {
      forall r: Request, v: World, m: nat, q: Request, w: World, n: nat |
        Plausible(c, write, v) && Plausible(c, write, w) && !r.incumbent && !q.incumbent
          && Succeeds(v, After(c, q, w, n))
        ensures !BothLead(After(c, r, v, m), After(c, q, w, n))
      {
        NeverBoth(c, write, r, v, m, q, w, n);
      }
    }
  }

  /** With the timeout the code derives, a heartbeat under one second is never safe, and from
      two seconds on, writes may take half a heartbeat. */
  lemma DerivedTimeoutIsSafe(heartbeat: nat, write: nat)
    requires heartbeat > 0
    ensures heartbeat < 1_000_000_000 ==> !Exclusive(Timing(heartbeat, LeadPingTimeout(heartbeat)), write)
    ensures heartbeat >= 2_000_000_000 ==>
      (Exclusive(Timing(heartbeat, LeadPingTimeout(heartbeat)), write) <==> write <= heartbeat - heartbeat / 2)
    ensures Exclusive(Timing(5_000_000_000, LeadPingTimeout(LeadHeartbeat)), 2_500_000_000)
  {
    ExclusiveIff(Timing(heartbeat, LeadPingTimeout(heartbeat)), write);
    ExclusiveIff(Timing(LeadHeartbeat, LeadPingTimeout(LeadHeartbeat)), 2_500_000_000);
  }
}
