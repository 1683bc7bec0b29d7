/**
  Running a command within a time bound.  A `World` says when processes and pipes end, whatever is done
  to them; a `Host` holds the clock that the waits move.  Times are microseconds; a wait with a timeout
  takes at most that, a sleep takes its argument, and starting and signalling a process take no time.
 */
module BoundedRun {
  import opened Options

  type Pid = nat

  const POLL := 50_000
  const SECOND := 1_000_000

  /** Which processes run when; when the command itself exits and each pipe is closed, if ever; whether
      the command can be named, the processes found below it when it is stopped, and which processes can
      be identified when. */
  datatype World = World(
    running: (Pid, int) -> bool, root: Pid, exit: Option<int>, named: int -> bool, children: seq<Pid>,
    identified: (Pid, int) -> bool, stdout: Option<int>, stderr: Option<int>)

  datatype Report = Refused | Killed(killed: nat, survivors: seq<Pid>)

  function Max(a: int, b: int): int {
    if a < b then b else a
  }

  /** `d` rounded up to whole polls; nothing for a timeout that has passed. */
  function RoundUp(d: int): int {
    if d <= 0 then 0 else (d + POLL - 1) / POLL * POLL
  }

  function RunningAt(w: World, procs: seq<Pid>, t: int): (r: seq<Pid>)
    ensures |r| <= |procs|
    ensures forall p :: p in r <==> p in procs && w.running(p, t)
  {
    if procs == [] then []
    else (if w.running(procs[0], t) then [procs[0]] else []) + RunningAt(w, procs[1..], t)
  }

  /** Those whose identity can be read. */
  function IdentifiedAt(w: World, procs: seq<Pid>, t: int): (r: seq<Pid>)
    ensures forall p :: p in r <==> p in procs && w.identified(p, t)
  {
    if procs == [] then []
    else (if w.identified(procs[0], t) then [procs[0]] else []) + IdentifiedAt(w, procs[1..], t)
  }

  /** Seen running at `from` and at each of the next `n` polls. */
  predicate Throughout(w: World, p: Pid, from: int, n: nat) {
    (n > 0 ==> Throughout(w, p, from, n - 1)) && w.running(p, from + n * POLL)
  }

  /** Not running at some moment of the interval. */
  ghost predicate GoneIn(w: World, p: Pid, from: int, to: int) {
    exists t | from <= t <= to :: !w.running(p, t)
  }

  lemma {:induction false} GoneUnlessThroughout(w: World, p: Pid, from: int, n: nat)
    ensures Throughout(w, p, from, n) ==> w.running(p, from + n * POLL)
    ensures !Throughout(w, p, from, n) ==> GoneIn(w, p, from, from + n * POLL)
  {
    if n > 0 {
      GoneUnlessThroughout(w, p, from, n - 1);
    }
    assert !w.running(p, from + n * POLL) ==> GoneIn(w, p, from, from + n * POLL);
  }

  /** When a join that may last until `until` returns. */
  function JoinEnd(now: int, closed: Option<int>, until: int): int {
    if closed.Some? && closed.value <= until then Max(now, closed.value) else Max(now, until)
  }

  /** The command exits by itself within the timeout. */
  predicate ExitsBy(w: World, t: int) {
    w.exit.Some? && w.exit.value <= t
  }

  /** Nothing dies, whatever is sent to it, and no pipe is closed. */
  ghost predicate NothingEnds(w: World) {
    w.exit == None && w.stdout == None && w.stderr == None && (forall t :: w.named(t)) && forall p, t :: w.running(p, t)
  }

  class Host {
    const w: World
    var now: int

    constructor (w: World, now: int)
      ensures this.w == w && this.now == now
    {
      this.w, this.now := w, now;
    }

    /** Polls until the processes are gone or the timeout has passed, and returns those seen running at
        every poll.  It stops at the first poll that finds none, and never a whole poll after the timeout. */
    method Wait(procs: seq<Pid>, timeout: int) returns (alive: seq<Pid>)
      modifies this
      ensures old(now) <= now <= old(now) + RoundUp(timeout) && (now - old(now)) % POLL == 0
      ensures forall p :: p in alive <==> p in procs && Throughout(w, p, old(now), (now - old(now)) / POLL)
      ensures alive != [] ==> now == old(now) + RoundUp(timeout)
      ensures now > old(now) ==> exists p :: p in procs && Throughout(w, p, old(now), (now - old(now)) / POLL - 1)
    {
      var deadline := now + timeout;
      alive := RunningAt(w, procs, now);
      ghost var n: nat := 0;
      while alive != [] && now < deadline
        invariant now == old(now) + n * POLL && (n > 0 ==> (n - 1) * POLL < timeout)
        invariant forall p :: p in alive <==> p in procs && Throughout(w, p, old(now), n)
        invariant n > 0 ==> exists p :: p in procs && Throughout(w, p, old(now), n - 1)
        decreases deadline - now
      {
        assert alive[0] in procs && Throughout(w, alive[0], old(now), n);
        now := now + POLL;
        n := n + 1;
        alive := RunningAt(w, alive, now);
      }
      assert (now - old(now)) / POLL == n;
    }

    /** `Popen.wait`: true when the command exited within the timeout. */
    method WaitExit(timeout: int) returns (exited: bool)
      modifies this
      ensures exited <==> ExitsBy(w, old(now) + Max(timeout, 0))
      ensures now == if exited then Max(old(now), w.exit.value) else old(now) + Max(timeout, 0)
    {
      exited := w.exit.Some? && w.exit.value <= now + Max(timeout, 0);
      now := if exited then Max(now, w.exit.value) else now + Max(timeout, 0);
    }

    /** `Thread.join` of a pipe reader that ends when its pipe is closed. */
    method Join(closed: Option<int>, timeout: int)
      modifies this
      ensures now == JoinEnd(old(now), closed, old(now) + Max(timeout, 0))
    {
      now := JoinEnd(now, closed, now + Max(timeout, 0));
    }

    /** Stops the command and everything below it, first politely.  Every process of the tree is a reported
        survivor, running when the stop returns, or was gone at some moment of it, or cannot be identified
        in the end.  Unless all were gone at some moment, the stop takes its full time. */
    method KillTree(grace: int) returns (r: Report)
      modifies this
      ensures old(now) <= now <= old(now) + RoundUp(grace) + 2 * SECOND
      ensures !w.named(old(now)) ==> r == Refused && now == old(now)
      ensures w.named(old(now)) ==>
                && r.Killed? && r.killed == |w.children| + 1
                && (forall p | p in r.survivors :: p in w.children + [w.root] && w.running(p, now) && w.identified(p, now))
                && (forall p | p in w.children + [w.root] && p !in r.survivors ::
                      GoneIn(w, p, old(now), now) || (w.running(p, now) && !w.identified(p, now)))
                && (now == old(now) + RoundUp(grace) + 2 * SECOND
                    || forall p | p in w.children + [w.root] :: GoneIn(w, p, old(now), now))
    {
      if !w.named(now) {
        return Refused;
      }
      var procs := w.children + [w.root];
      ghost var t0 := now;
      var alive := Wait(procs, grace);
      ghost var t1 := now;
      var still := Wait(alive, 2 * SECOND);
      forall p
        ensures p in still ==> p in procs && w.running(p, now)
        ensures p in procs && p !in still ==> GoneIn(w, p, t0, now)
      {
        GoneUnlessThroughout(w, p, t0, (t1 - t0) / POLL);
        GoneUnlessThroughout(w, p, t1, (now - t1) / POLL);
      }
      assert still != [] ==> still[0] in alive;
      r := Killed(|procs|, IdentifiedAt(w, still, now));
    }

    method KillPopen(grace: int) returns (r: Report)
      modifies this
      ensures old(now) <= now <= old(now) + RoundUp(grace) + 3 * SECOND
      ensures ExitsBy(w, old(now)) ==> r == Refused && now == old(now)
      ensures NothingEnds(w) ==> now == old(now) + RoundUp(grace) + 3 * SECOND
    {
      if w.exit.Some? && w.exit.value <= now {
        return Refused;
      }
      r := KillTree(grace);
      assert w.root in w.children + [w.root];
      assert NothingEnds(w) ==> !GoneIn(w, w.root, old(now), now);
      var reaped := WaitExit(SECOND);
    }

    /** Main result.  A command that exits in time returns by the deadline, as soon as it has exited and
        its pipes are closed; one that does not is stopped, and the call returns within the timeout, the
        grace rounded up to polls and four seconds, whatever its processes do with the pipes.  The bound
        is reached when nothing ends. */
    method RunBounded(timeout: int, grace: int) returns (exited: bool)
      modifies this
      ensures exited <==> ExitsBy(w, old(now) + Max(timeout, 0))
      ensures exited ==>
                var deadline, left := old(now) + Max(timeout, 0), Max(old(now), w.exit.value);
                && now == JoinEnd(JoinEnd(left, w.stdout, deadline), w.stderr, deadline)
                && left <= now <= deadline
      ensures !exited ==> old(now) + Max(timeout, 0) <= now <= old(now) + Max(timeout, 0) + RoundUp(grace) + 4 * SECOND
      ensures NothingEnds(w) ==> now == old(now) + Max(timeout, 0) + RoundUp(grace) + 4 * SECOND
    {
      var deadline := now + timeout;
      exited := WaitExit(timeout);
      if !exited {
        var report := KillPopen(grace);
      }
      var joinUntil := Max(deadline, now) + if exited then 0 else SECOND;
      Join(w.stdout, Max(0, joinUntil - now));
      Join(w.stderr, Max(0, joinUntil - now));
    }
  }
}
