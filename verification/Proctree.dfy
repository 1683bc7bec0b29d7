/**
  Pausing a process tree by suspending its threads.  The machine's process table changes under the
  pool's feet: between any two actions processes exit, children appear, pids are reused and threads
  come and go (`Drift`).  A process whose threads are all suspended runs nothing, so it does not
  change by itself.
 */
module Proctree {
  import opened Options
  import opened Descendants
  import opened Sets

  type Tid = int
  type RunId = nat

  /** `readable`: opening the thread and reading its suspend count both succeed. */
  datatype Thread = Thread(count: nat, readable: bool)

  /** `listable`: its threads can be listed.  `signalable`: the pool may suspend and resume it. */
  datatype Proc = Proc(ppid: Pid, created: nat, listable: bool, signalable: bool, threads: map<Tid, Thread>)

  type Procs = map<Pid, Proc>

  datatype Reading = Frozen | Running | Mixed | Gone | Unknown

  /** One measurement of a tree: the verdict, the reading per pid, and when it began. */
  datatype Observation = Observation(state: Reading, pids: seq<Pid>, rows: seq<Reading>, at: nat)

  /** Why a suspend was refused; `NotFrozen` names what the sweep measured. */
  datatype Refusal = WrongProcess | Unwatchable | Vanished | NotFrozen(measured: Reading)

  /** What became of a watchdog's launch: it failed, or it landed inside the pool's own tree, or outside. */
  datatype Launch = Failed | Inside | Outside

  /** One process told to suspend or to resume all its threads. */
  datatype Sig = Sig(pid: Pid, up: bool)

  function Ups(pids: seq<Pid>): (r: seq<Sig>)
    ensures |r| == |pids| && forall i | 0 <= i < |r| :: r[i] == Sig(pids[i], true)
  {
    seq(|pids|, i requires 0 <= i < |pids| => Sig(pids[i], true))
  }

  ghost predicate RootFirst(pids: seq<Pid>, root: Pid) {
    pids != [] && pids[0] == root && Distinct(pids)
  }

  /** Last first. */
  function Downs(pids: seq<Pid>): (r: seq<Sig>)
    ensures |r| == |pids| && forall i | 0 <= i < |r| :: r[i] == Sig(pids[|pids| - 1 - i], false)
  {
    seq(|pids|, i requires 0 <= i < |pids| => Sig(pids[|pids| - 1 - i], false))
  }

  datatype SuspendResult = SuspendResult(
    ok: bool,
    idempotent: bool,
    adopted: bool,
    runid: Option<RunId>,
    observed: Option<Observation>,
    signalled: seq<Pid>,          // the tree as enumerated before the sweep
    enumeratedAt: nat,
    refused: Option<Refusal>)

  datatype ResumeResult = ResumeResult(
    ok: bool, observed: Option<Observation>, released: bool,
    signalled: seq<Pid>,          // the tree as enumerated before the sweep
    enumeratedAt: nat)

  /** A creation time within one second of the recorded one is the same process (100 ns ticks). */
  const TOLERANCE := 10_000_000

  // ---------------------------------------------------------------- suspend counts

  predicate AllCounts(p: Proc, n: nat) {
    forall t | t in p.threads :: p.threads[t].count == n
  }

  predicate Stopped(p: Proc) {
    p.threads != map[] && forall t | t in p.threads :: p.threads[t].count > 0
  }

  predicate Hot(p: Proc) {
    exists t | t in p.threads :: p.threads[t].count > 0
  }

  /** No thread of the machine is suspended. */
  predicate Quiet(t: Procs) {
    forall p | p in t :: AllCounts(t[p], 0)
  }

  /** Every process is wholly running, or was suspended exactly once and may be resumed. */
  predicate Uniform(t: Procs) {
    forall p | p in t :: AllCounts(t[p], 0) || (AllCounts(t[p], 1) && t[p].signalable)
  }

  predicate Born(t: Procs, clock: nat) {
    forall p | p in t :: t[p].created <= clock
  }

  function WithCounts(p: Proc, up: bool): Proc {
    p.(threads := map t | t in p.threads ::
         p.threads[t].(count := if up then p.threads[t].count + 1
                                else if p.threads[t].count == 0 then 0 else p.threads[t].count - 1))
  }

  function Signal(t: Procs, p: Pid, up: bool): Procs {
    if p in t && t[p].signalable then t[p := WithCounts(t[p], up)] else t
  }

  // ---------------------------------------------------------------- the machine's own changes

  predicate Evolves(a: Proc, b: Proc) {
    && a.ppid == b.ppid && a.created == b.created && a.listable == b.listable && a.signalable == b.signalable
    && if Stopped(a) then b.threads == a.threads
       else forall t | t in b.threads :: (t in a.threads && b.threads[t] == a.threads[t]) || b.threads[t].count == 0
  }

  predicate SameProcess(t: Procs, u: Procs, p: Pid) {
    p in t && p in u && t[p].created == u[p].created
  }

  /** A new process: nothing in it is suspended, and its parent was not stopped. */
  predicate Spawned(t: Procs, b: Proc, now: nat) {
    b.created > now && AllCounts(b, 0) && !(b.ppid in t && Stopped(t[b.ppid]))
  }

  /** From table `t` at time `now` the machine may have moved to `u`. */
  predicate Drifts(t: Procs, u: Procs, now: nat) {
    forall p | p in u :: if SameProcess(t, u, p) then Evolves(t[p], u[p]) else Spawned(t, u[p], now)
  }

  // ---------------------------------------------------------------- readings

  function Classify(p: Proc): Reading {
    if !p.listable then Unknown
    else if forall t | t in p.threads :: !p.threads[t].readable then Unknown
    else if forall t | t in p.threads && p.threads[t].readable :: p.threads[t].count > 0 then Frozen
    else if forall t | t in p.threads && p.threads[t].readable :: p.threads[t].count == 0 then Running
    else Mixed
  }

  function ReadingOf(t: Procs, p: Pid): Reading {
    if p in t then Classify(t[p]) else Gone
  }

  /** Frozen for certain: it can be seen, and every one of its threads is suspended. */
  predicate SeenStopped(p: Proc) {
    && p.listable && Stopped(p)
    && exists t | t in p.threads :: p.threads[t].readable
  }

  function Verdict(rows: seq<Reading>): Reading {
    if forall i | 0 <= i < |rows| :: rows[i] == Gone then Gone
    else if forall i | 0 <= i < |rows| :: rows[i] in {Gone, Frozen} then Frozen
    else if forall i | 0 <= i < |rows| :: rows[i] in {Gone, Running} then Running
    else if (exists i | 0 <= i < |rows| :: rows[i] == Unknown)
            && (forall i | 0 <= i < |rows| :: rows[i] !in {Frozen, Mixed}) then Unknown
    else Mixed
  }

  /** The verdict from the kinds of readings other than gone. */
  lemma {:induction false} VerdictExactly(rows: seq<Reading>)
    ensures var kinds := set r | r in rows && r != Gone;
            && (Verdict(rows) == Gone <==> kinds == {})
            && (Verdict(rows) == Frozen <==> kinds == {Frozen})
            && (Verdict(rows) == Running <==> kinds == {Running})
            && (Verdict(rows) == Unknown <==> Unknown in kinds && kinds <= {Unknown, Running})
            && (Verdict(rows) == Mixed <==> Mixed in kinds || (Frozen in kinds && kinds != {Frozen}))
  {
    var kinds := set r | r in rows && r != Gone;
    forall i | 0 <= i < |rows| ensures rows[i] != Gone ==> rows[i] in kinds {
      assert rows[i] in rows;
    }
    forall r | r in kinds ensures r.Frozen? || r.Running? || r.Mixed? || r.Unknown? {
    }
    if kinds == {} {
      assert Verdict(rows) == Gone;
    } else {
      var r :| r in kinds;
      var i :| 0 <= i < |rows| && rows[i] == r;
      assert Verdict(rows) != Gone;
      assert Frozen !in kinds && kinds <= {Running} ==> kinds == {Running};
      assert kinds <= {Frozen} ==> kinds == {Frozen};
    }
  }

  /** A process is read frozen or running when all its readable threads are, mixed when they differ, and
      unknown when there is none or they cannot be listed. */
  lemma {:induction false} ClassifyExactly(p: Proc)
    ensures var counts := set t | t in p.threads && p.threads[t].readable :: p.threads[t].count;
            match Classify(p)
            case Unknown => !p.listable || counts == {}
            case Frozen => p.listable && counts != {} && 0 !in counts
            case Running => p.listable && counts == {0}
            case Mixed => p.listable && 0 in counts && counts != {0}
            case Gone => false
  {
    var counts := set t | t in p.threads && p.threads[t].readable :: p.threads[t].count;
    forall t | t in p.threads && p.threads[t].readable ensures p.threads[t].count in counts {
    }
  }

  // ---------------------------------------------------------------- the tree of a pid

  function Rows(t: Procs): Table {
    map p | p in t :: Row(t[p].ppid, t[p].created)
  }

  ghost predicate InTree(t: Procs, root: Pid, p: Pid) {
    root in t && p in t && (p == root || Reachable(Rows(t), root, p))
  }

  /** If the root is still the process measured at `at`, the whole tree under it is seen to be stopped. */
  ghost predicate TreeStopped(t: Procs, root: Pid, at: nat) {
    root in t && t[root].created <= at ==> forall p | InTree(t, root, p) :: SeenStopped(t[p])
  }

  /** `pids` is the tree of `root` in the table `t` of time `at`. */
  ghost predicate Enumerated(t: Procs, root: Pid, pids: seq<Pid>, at: nat) {
    Born(t, at) && forall p :: p in pids <==> InTree(t, root, p)
  }

  /** May this pid be signalled for the process recorded with this creation time? */
  predicate Matches(t: Procs, pid: Pid, created: Option<nat>) {
    pid != 0 && created.Some? && pid in t && -TOLERANCE < t[pid].created - created.value < TOLERANCE
  }

  /** `r` is how `p` read in some table that came out of `t` since `at`. */
  ghost predicate WasRead(t: Procs, at: nat, p: Pid, r: Reading) {
    exists u: Procs :: Trails(t, u, at) && r == ReadingOf(u, p)
  }

  /** `signalled` was the tree of `pid` in a table of time `at` that came out of `t`, and out of which `u` came. */
  ghost predicate CameFrom(t: Procs, now: nat, u: Procs, pid: Pid, signalled: seq<Pid>, at: nat) {
    exists t0: Procs | Enumerated(t0, pid, signalled, at) :: now <= at && Trails(t, t0, now) && Kept(t0, u, at)
  }

  /** `signalled` was the tree of `pid` in some table of time `at` that came out of `t`, and of what was
      suspended then exactly the processes outside it that still live are suspended in `u`. */
  ghost predicate Resumed(t: Procs, now: nat, u: Procs, pid: Pid, signalled: seq<Pid>, at: nat) {
    exists v: Procs | Enumerated(v, pid, signalled, at) ::
      now <= at && Trails(t, v, now) && Uniform(v) && Leftover(v, u, signalled, at)
  }

  /** Every process that was one of `pids` at time `at` is still there: its pid names nothing newer. */
  predicate AllLive(t: Procs, pids: seq<Pid>, at: nat) {
    forall p | p in pids :: p in t && t[p].created <= at
  }

  /** Every process suspended in `t` that lives on in `u` is one of `pids`. */
  predicate Covers(t: Procs, u: Procs, pids: seq<Pid>) {
    forall p | p in t && Hot(t[p]) && SameProcess(t, u, p) :: p in pids
  }

  class Machine {
    var table: Procs
    var clock: nat
    var tokens: map<Pid, RunId>
    var armed: set<RunId>               // watchdogs launched and verified out of the tree
    var issued: nat
    ghost var launches: seq<Launch>     // how each launch went
    ghost var signals: seq<Sig>         // every signal sent, in order

    ghost predicate Valid()
      reads this
    {
      Born(table, clock)
    }

    /** One more watchdog was launched, and it did not come to stand outside the pool's tree. */
    ghost predicate LaunchMissed(before: seq<Launch>)
      reads this
    {
      |launches| == |before| + 1 && launches[|before|] != Outside
    }

    /** Time passes and the machine changes. */
    method Drift()
      requires Valid()
      modifies this`table, this`clock
      ensures Valid() && clock > old(clock)
      ensures Drifts(old(table), table, old(clock))
    {
      var next: Procs := *;
      var later: nat := *;
      if later <= clock {
        later := clock + 1;
      }
      if Drifts(table, next, clock) && Born(next, later) {
        table := next;
      }
      clock := later;
    }

    /** The thread's suspend count before the probe: suspending reveals it, resuming undoes it. */
    method ProbeThread(p: Pid, tid: Tid) returns (prev: Option<nat>)
      requires p in table && tid in table[p].threads
      modifies this`table
      ensures table == old(table)
      ensures prev == if table[p].threads[tid].readable then Some(table[p].threads[tid].count) else None
    {
      var th := table[p].threads[tid];
      if !th.readable {
        return None;
      }
      ghost var before := table;
      prev := Some(th.count);
      SetCount(p, tid, th.count + 1);
      var now := table[p].threads[tid].count;
      SetCount(p, tid, now - 1);
      assert table[p].threads == before[p].threads;
      assert table[p] == before[p];
    }

    method SetCount(p: Pid, tid: Tid, n: nat)
      requires p in table && tid in table[p].threads
      modifies this`table
      ensures table == old(table)[p := old(table)[p].(threads := old(table)[p].threads[tid := old(table)[p].threads[tid].(count := n)])]
    {
      var q := table[p];
      table := table[p := q.(threads := q.threads[tid := q.threads[tid].(count := n)])];
    }

    /** `frozen | running | mixed | gone | unknown` for one pid, from its thread suspend counts. */
    method ProcessFreezeState(p: Pid) returns (r: Reading)
      modifies this`table
      ensures table == old(table)
      ensures r == ReadingOf(table, p)
    {
      if p !in table {
        return Gone;
      }
      if !table[p].listable {
        return Unknown;
      }
      var tids := Listed(table[p].threads.Keys);
      var anySeen, allUp, allZero := false, true, true;
      ghost var threads := table[p].threads;
      forall k | 0 <= k < |tids| ensures tids[k] in threads {
        assert tids[k] in tids;
      }
      for i := 0 to |tids|
        invariant table == old(table) && p in table
        invariant forall k | 0 <= k < |tids| :: tids[k] in threads
        invariant anySeen <==> exists k | 0 <= k < i :: threads[tids[k]].readable
        invariant allUp <==> forall k | 0 <= k < i && threads[tids[k]].readable :: threads[tids[k]].count > 0
        invariant allZero <==> forall k | 0 <= k < i && threads[tids[k]].readable :: threads[tids[k]].count == 0
      {
        var c := ProbeThread(p, tids[i]);
        if c.Some? {
          anySeen := true;
          allUp := allUp && c.value > 0;
          allZero := allZero && c.value == 0;
        }
      }
      forall t ensures t in threads <==> exists k :: 0 <= k < |tids| && tids[k] == t {}
      r := if !anySeen then Unknown else if allUp then Frozen else if allZero then Running else Mixed;
    }

    /** `pid` and every descendant, root first. */
    method TreePids(pid: Pid) returns (pids: seq<Pid>)
      ensures forall p :: p in pids <==> InTree(table, pid, p)
      ensures Distinct(pids) && (pids != [] ==> pids[0] == pid)
    {
      if pid !in table {
        return [];
      }
      var order := Listed(table.Keys);
      var kids := Collect(Rows(table), order, pid);
      assert pid !in Pids(kids);
      pids := [pid] + Pids(kids);
    }

    /** Measures a tree pid by pid, while the machine drifts between the readings. */
    method ObserveTreeState(pid: Pid) returns (o: Observation)
      requires Valid()
      modifies this`table, this`clock
      ensures Valid() && clock >= old(clock) && o.at == old(clock)
      ensures (forall p :: p in o.pids <==> InTree(old(table), pid, p)) && |o.rows| == |o.pids| && o.state == Verdict(o.rows)
      ensures forall k | 0 <= k < |o.rows| :: WasRead(old(table), old(clock), o.pids[k], o.rows[k])
      ensures Trails(old(table), table, old(clock))
      ensures old(Uniform(table)) ==> Uniform(table)
      ensures old(Quiet(table)) ==> Quiet(table)
      ensures (forall p | InTree(old(table), pid, p) :: !Hot(old(table)[p])) ==> o.state != Frozen
      ensures old(Uniform(table)) && o.state == Frozen ==> TreeStopped(table, pid, o.at)
    {
      var at := clock;
      var pids := TreePids(pid);
      var rows: seq<Reading> := [];
      ghost var first := table;
      TrailsRefl(table, clock);
      for i := 0 to |pids|
        invariant Valid() && clock >= at && |rows| == i
        invariant RowsOk(first, table, pids, rows, at)
        invariant forall k | 0 <= k < i :: WasRead(first, at, pids[k], rows[k])
      {
        var r := ProcessFreezeState(pids[i]);
        assert WasRead(first, at, pids[i], r);
        ghost var before, now := table, clock;
        Drift();
        RowsStep(first, before, table, pids, rows, r, at, now);
        rows := rows + [r];
      }
      o := Observation(Verdict(rows), pids, rows, at);
      if o.state == Frozen {
        FrozenTree(first, table, pid, pids, rows, at);
      }
    }

    /** A missing creation time is a refusal.  `FingerprintIdentifiesExactly` says what a match is worth. */
    method FingerprintMatches(pid: Pid, created: Option<nat>) returns (ok: bool)
      ensures ok <==> Matches(table, pid, created)
    {
      if pid == 0 || created == None {
        return false;
      }
      ok := pid in table && -TOLERANCE < table[pid].created - created.value < TOLERANCE;
    }

    /** The measurement of a recorded process: `Unknown`, with no reading at all, when the pid does not match. */
    method ObserveRecorded(pid: Pid, created: Option<nat>) returns (o: Observation)
      requires Valid() && created.Some?
      modifies this`table, this`clock
      ensures Valid() && clock >= old(clock)
      ensures Trails(old(table), table, old(clock))
      ensures !Matches(old(table), pid, created) ==> o.state == Unknown && o.pids == [] && table == old(table)
      ensures o.state != Unknown ==> Matches(old(table), pid, created)
      ensures old(Uniform(table)) && o.state == Frozen ==> TreeStopped(table, pid, o.at)
    {
      var may := FingerprintMatches(pid, created);
      if !may {
        TrailsRefl(table, clock);
        return Observation(Unknown, [], [], clock);
      }
      o := ObserveTreeState(pid);
    }

    /** Suspends or resumes one process, if it is there and may be signalled. */
    method Send(p: Pid, up: bool)
      modifies this`table, this`signals
      ensures table == Signal(old(table), p, up) && signals == old(signals) + [Sig(p, up)]
    {
      table := Signal(table, p, up);
      signals := signals + [Sig(p, up)];
    }

    /** Suspends each pid in turn.  From a quiet machine only the given pids end up suspended. */
    method SuspendAll(pids: seq<Pid>)
      requires Valid() && Distinct(pids)
      modifies this`table, this`clock, this`signals
      ensures Valid() && clock >= old(clock) && signals == old(signals) + Ups(pids)
      ensures Kept(old(table), table, old(clock))
      ensures old(Quiet(table)) ==> Uniform(table) && forall p | p in table && Hot(table[p]) :: p in pids
    {
      ghost var first := table;
      for i := 0 to |pids|
        invariant Valid() && clock >= old(clock) && Kept(first, table, old(clock))
        invariant signals == old(signals) + Ups(pids[..i])
        invariant Quiet(first) ==> Uniform(table) && forall p | p in table && Hot(table[p]) :: p in pids[..i]
      {
        ghost var before := table;
        Send(pids[i], true);
        if Quiet(first) {
          SuspendOneKeeps(before, pids[i], pids[..i]);
        }
        assert pids[..i + 1] == pids[..i] + [pids[i]];
        assert Ups(pids[..i + 1]) == Ups(pids[..i]) + [Sig(pids[i], true)];
        ghost var mid, now := table, clock;
        Drift();
        DriftKeeps(mid, table, now);
        DriftTrails(mid, table, now);
      }
      assert pids[..|pids|] == pids;
    }

    /** Resumes each pid in turn, last first.  From a uniform machine exactly the suspended
        processes outside `pids` that still live stay suspended. */
    method ResumeAll(pids: seq<Pid>)
      requires Valid()
      modifies this`table, this`clock, this`signals
      ensures Valid() && clock >= old(clock) && signals == old(signals) + Downs(pids)
      ensures old(Uniform(table)) ==> Uniform(table) && Leftover(old(table), table, pids, old(clock))
    {
      ghost var first, at := table, clock;
      var k := |pids|;
      while k > 0
        invariant 0 <= k <= |pids|
        invariant Valid() && clock >= at && signals == old(signals) + Downs(pids[k..])
        invariant Uniform(first) ==> Uniform(table) && Leftover(first, table, pids[k..], at)
        decreases k
      {
        k := k - 1;
        assert pids[k..] == [pids[k]] + pids[k + 1..];
        ghost var before := table;
        Send(pids[k], false);
        assert Downs(pids[k..]) == Downs(pids[k + 1..]) + [Sig(pids[k], false)];
        if Uniform(first) {
          ResumeOneKeeps(first, before, pids[k], pids[k + 1..], at);
        }
        ghost var mid, now := table, clock;
        Drift();
        DriftKeeps(mid, table, now);
        if Uniform(first) {
          DriftTrails(mid, table, now);
          LeftoverTrails(first, mid, table, pids[k..], at, now);
        }
      }
      assert pids[0..] == pids;
    }

    /** Writes the run token, launches the watchdog, and takes the token back when it did not launch
        or landed inside the pool's own tree. */
    method Arm(pid: Pid, runid: RunId) returns (ok: bool)
      modifies this`tokens, this`armed, this`launches
      ensures ok ==> tokens == old(tokens)[pid := runid] && armed == old(armed) + {runid}
      ensures !ok ==> tokens == old(tokens) - {pid} && armed == old(armed)
      ensures |launches| == |old(launches)| + 1 && (ok <==> launches[|launches| - 1] == Outside)
    {
      tokens := tokens[pid := runid];
      var launch := LaunchWatchdog();
      if launch == Failed {
        var released := Disarm(pid, Some(runid));
        assert tokens == old(tokens) - {pid};
        return false;
      }
      if launch == Inside {
        var released := Disarm(pid, Some(runid));
        assert tokens == old(tokens) - {pid};
        return false;
      }
      armed := armed + {runid};
      return true;
    }

    method LaunchWatchdog() returns (launch: Launch)
      modifies this`launches
      ensures launches == old(launches) + [launch]
    {
      launch := *;
      launches := launches + [launch];
    }

    /** Releases the token unless it names another run; without a run id whatever is there goes. */
    method Disarm(pid: Pid, runid: Option<RunId>) returns (released: bool)
      modifies this`tokens
      ensures released <==> pid in old(tokens) && (runid == None || runid.value == old(tokens)[pid])
      ensures tokens == if released then old(tokens) - {pid} else old(tokens)
    {
      if pid !in tokens || (runid.Some? && tokens[pid] != runid.value) {
        return false;
      }
      tokens := tokens - {pid};
      return true;
    }

    /** The sweep, the measurement, and the rollback when it does not read frozen.  `t` is the table of
        time `at` in which `pids` was enumerated. */
    method FreezeOrUndo(pid: Pid, pids: seq<Pid>, ghost t: Procs, ghost at: nat) returns (observed: Observation)
      requires Valid() && Distinct(pids) && Kept(t, table, at) && at <= clock
      modifies this`table, this`clock, this`signals
      ensures Valid() && clock >= old(clock) && |observed.rows| == |observed.pids|
      ensures signals == old(signals) + Ups(pids) + if observed.state == Frozen then [] else Downs(pids)
      ensures observed.state == Frozen ==> Kept(t, table, at) && observed.at <= clock
      ensures old(Quiet(table)) && observed.state != Frozen ==> Quiet(table)
      ensures old(Quiet(table)) && observed.state == Frozen ==>
                && Uniform(table)
                && TreeStopped(table, pid, observed.at)
                && (forall p | p in table && Hot(table[p]) :: p in pids)
    {
      SuspendAll(pids);
      ghost var swept, now := table, clock;
      observed := ObserveTreeState(pid);
      KeptTwice(t, old(table), swept, at, old(clock));
      KeptTwice(t, swept, table, at, now);
      if observed.state != Frozen {
        UndoSweep(pids);
      }
    }

    /** Resumes what a sweep of `pids` has suspended. */
    method UndoSweep(pids: seq<Pid>)
      requires Valid()
      modifies this`table, this`clock, this`signals
      ensures Valid() && clock >= old(clock) && signals == old(signals) + Downs(pids)
      ensures old(Uniform(table) && forall p | p in table && Hot(table[p]) :: p in pids) ==> Quiet(table)
    {
      ghost var hot, from := table, clock;
      ResumeAll(pids);
      if Uniform(hot) && forall p | p in hot && Hot(hot[p]) :: p in pids {
        NothingLeft(hot, table, pids, from);
      }
    }

    /** The tree already reads frozen: hold on to its token, or arm a watchdog over an unwatched freeze. */
    method AdoptFreeze(pid: Pid, already: Observation, armWatchdog: bool) returns (r: SuspendResult)
      modifies this`tokens, this`armed, this`issued, this`launches
      ensures !r.ok ==> |launches| == |old(launches)| + 1 && launches[|launches| - 1] != Outside
      ensures r.idempotent && r.observed == Some(already)
      ensures r.refused == if r.ok then None else Some(Unwatchable)
      ensures r.ok && !r.adopted <==> !armWatchdog || pid in old(tokens)
      ensures r.ok && !r.adopted ==> tokens == old(tokens) && armed == old(armed)
      ensures r.adopted ==> r.ok
      ensures r.adopted ==>
                && r.runid == Some(issued) && issued > old(issued)
                && tokens == old(tokens)[pid := issued] && armed == old(armed) + {issued}
      ensures !r.ok ==> tokens == old(tokens) && armed == old(armed)
    {
      r := SuspendResult(false, true, false, None, Some(already), [], 0, Some(Unwatchable));
      if !armWatchdog || pid in tokens {
        return r.(ok := true, refused := None);
      }
      issued := issued + 1;
      var wd := Arm(pid, issued);
      if wd {
        return r.(ok := true, adopted := true, runid := Some(issued), refused := None);
      }
      assert tokens == old(tokens);
    }

    /** Takes a fresh run id and arms its watchdog; the machine drifts before and after. */
    method Prepare(pid: Pid, armWatchdog: bool, ghost t: Procs, ghost at: nat) returns (ready: bool)
      requires Valid() && at <= clock && Kept(t, table, at)
      modifies this
      ensures signals == old(signals)
      ensures Valid() && clock >= old(clock) && Kept(t, table, at) && (old(Quiet(table)) ==> Quiet(table))
      ensures issued == old(issued) + 1 && (!armWatchdog ==> ready && launches == old(launches))
      ensures armWatchdog ==> |launches| == |old(launches)| + 1 && (ready <==> launches[|launches| - 1] == Outside)
      ensures tokens == if !armWatchdog then old(tokens) else if ready then old(tokens)[pid := issued] else old(tokens) - {pid}
      ensures armed == if armWatchdog && ready then old(armed) + {issued} else old(armed)
    {
      TimePasses(t, at);
      issued := issued + 1;
      ready := true;
      if armWatchdog {
        ready := Arm(pid, issued);
      }
      TimePasses(t, at);
    }

    /** After a sweep that was undone: the token of this run goes and the tree is measured again. */
    method StandDown(pid: Pid, armWatchdog: bool) returns (after: Observation)
      requires Valid() && (armWatchdog ==> pid in tokens && tokens[pid] == issued)
      modifies this`table, this`clock, this`tokens
      ensures Valid() && clock >= old(clock) && (old(Quiet(table)) ==> Quiet(table))
      ensures tokens == if armWatchdog then old(tokens) - {pid} else old(tokens)
    {
      if armWatchdog {
        var released := Disarm(pid, Some(issued));
      }
      after := ObserveTreeState(pid);
    }

    /** Drift since a table of time `at`. */
    method TimePasses(ghost t: Procs, ghost at: nat)
      requires Valid() && at <= clock && Kept(t, table, at)
      modifies this`table, this`clock
      ensures Valid() && clock >= old(clock) && Kept(t, table, at)
      ensures Drifts(old(table), table, old(clock))
      ensures old(Quiet(table)) ==> Quiet(table)
      ensures old(Uniform(table)) ==> Uniform(table)
    {
      ghost var before, now := table, clock;
      Drift();
      DriftKeeps(before, table, now);
      DriftTrails(before, table, now);
      KeptTwice(t, before, table, at, now);
    }

    /** What a suspend answers is what it did: on success it told the tree, root first, to suspend, unless the
        tree was frozen already; when the tree then measured otherwise, it told it to resume, root last; in
        every other refusal it told no process anything. */
    ghost predicate Answered(r: SuspendResult, pid: Pid, before: seq<Sig>)
      reads this
    {
      match r.refused
      case None => r.ok && if r.idempotent then signals == before else RootFirst(r.signalled, pid) && signals == before + Ups(r.signalled)
      case Some(NotFrozen(measured)) =>
        && !r.ok && !r.idempotent && r.observed.Some? && measured != Frozen
        && RootFirst(r.signalled, pid) && signals == before + Ups(r.signalled) + Downs(r.signalled)
      case Some(_) => !r.ok && signals == before
    }

    /** The tree does not read frozen: arm the watchdog first, then sweep, measure, and undo on failure.
        The machine drifts after the enumeration and after the arming. */
    method FreshFreeze(pid: Pid, armWatchdog: bool) returns (r: SuspendResult)
      requires Valid()
      modifies this
      ensures Valid() && clock >= old(clock) && !r.idempotent && !r.adopted
      ensures r.ok ==> r.observed.Some? && r.observed.value.state == Frozen && |r.observed.value.rows| == |r.observed.value.pids|
      ensures r.ok ==> r.observed.value.at <= clock
      ensures !r.ok ==> tokens == old(tokens) || (armWatchdog && tokens == old(tokens) - {pid})
      ensures armed <= old(armed) + {issued}
      ensures !armWatchdog ==> tokens == old(tokens) && armed == old(armed)
      ensures Answered(r, pid, old(signals)) && r.refused != Some(WrongProcess)
      ensures r.refused == Some(Vanished) ==> r.observed == None && pid !in old(table) && tokens == old(tokens)
      ensures r.refused == Some(Unwatchable) ==>
                r.observed == None && armWatchdog && pid in old(table) && armed == old(armed) && LaunchMissed(old(launches))
      ensures r.signalled != [] ==> r.enumeratedAt == old(clock) && Enumerated(old(table), pid, r.signalled, old(clock))
      ensures r.ok && armWatchdog ==>
                && r.runid == Some(issued) && issued > old(issued)
                && tokens == old(tokens)[pid := issued] && armed == old(armed) + {issued}
      ensures old(Quiet(table)) && !r.ok ==> Quiet(table)
      ensures old(Quiet(table)) && r.ok ==>
                && Uniform(table) && TreeStopped(table, pid, r.observed.value.at)
                && (forall p | p in table && Hot(table[p]) :: p in r.signalled)
                && Kept(old(table), table, old(clock))
    {
      r := SuspendResult(false, false, false, None, None, [], clock, Some(Vanished));
      var at := clock;
      var pids := TreePids(pid);
      ghost var t1 := table;
      assert pid in table ==> InTree(table, pid, pid);
      if pids == [] {
        return;
      }
      assert pids[0] in pids;
      var ready := Prepare(pid, armWatchdog, t1, at);
      if !ready {
        return r.(refused := Some(Unwatchable));
      }
      var observed := FreezeOrUndo(pid, pids, t1, at);
      if observed.state != Frozen {
        var after := StandDown(pid, armWatchdog);
        return r.(observed := Some(after), signalled := pids, refused := Some(NotFrozen(observed.state)));
      }
      assert Enumerated(t1, pid, pids, at) && Kept(t1, table, at);
      return SuspendResult(true, false, false, if armWatchdog then Some(issued) else None, Some(observed), pids, at, None);
    }

    /**
      Freezes the tree of `pid`, or refuses and leaves nothing suspended.  From a quiet machine:
      success means the whole tree is seen to be stopped now, under a token and an armed watchdog;
      only processes of the enumerated tree were touched; a refusal leaves the machine quiet and the
      token gone or as it was.  A pid that does not name the recorded process is refused before
      anything is done; one that does is refused unmeasured only if it exits on the way or its watchdog
      cannot be armed.
     */
    method SuspendTree(pid: Pid, created: Option<nat>, armWatchdog: bool) returns (r: SuspendResult)
      requires Valid()
      modifies this
      ensures Valid() && clock >= old(clock)
      ensures forall p | p != pid :: (p in tokens <==> p in old(tokens)) && (p in tokens ==> tokens[p] == old(tokens)[p])
      ensures !Matches(old(table), pid, created) <==> r.refused == Some(WrongProcess)
      ensures !Matches(old(table), pid, created) ==>
                && !r.ok && r.observed == None
                && table == old(table) && tokens == old(tokens) && armed == old(armed) && issued == old(issued)
                && signals == old(signals)
      ensures Answered(r, pid, old(signals))
      ensures r.refused == Some(Vanished) ==>
                r.observed == None && exists u: Procs :: Trails(old(table), u, old(clock)) && pid !in u
      ensures r.refused == Some(Unwatchable) ==>
                armWatchdog && armed == old(armed) && LaunchMissed(old(launches)) && (r.idempotent <==> r.observed.Some?)
      ensures r.ok ==> r.observed.Some? && r.observed.value.state == Frozen && |r.observed.value.rows| == |r.observed.value.pids|
      ensures r.ok ==> r.observed.value.at <= clock
      ensures r.ok && !r.idempotent ==> old(clock) < r.enumeratedAt <= clock && pid in r.signalled
      ensures r.idempotent ==>
                && (r.adopted <==> armWatchdog && pid !in old(tokens) && r.ok)
                && (!r.adopted && r.ok ==> tokens == old(tokens) && armed == old(armed) && (armWatchdog ==> pid in tokens))
      ensures r.ok && armWatchdog && (r.adopted || !r.idempotent) ==>
                && r.runid == Some(issued) && issued > old(issued)
                && tokens == old(tokens)[pid := issued] && armed == old(armed) + {issued}
      ensures old(Quiet(table)) && r.ok ==>
                && !r.idempotent && Uniform(table)
                && TreeStopped(table, pid, r.observed.value.at)
                && (forall p | p in table && Hot(table[p]) :: p in r.signalled)
                && CameFrom(old(table), old(clock), table, pid, r.signalled, r.enumeratedAt)
      ensures old(Quiet(table)) && !r.ok ==>
                && Quiet(table) && armed <= old(armed) + {issued}
                && (tokens == old(tokens) || (armWatchdog && tokens == old(tokens) - {pid}))
    {
      r := SuspendResult(false, false, false, None, None, [], clock, Some(WrongProcess));
      var may := FingerprintMatches(pid, created);
      if !may {
        return;
      }
      var already := ObserveTreeState(pid);
      if already.state == Frozen {
        r := AdoptFreeze(pid, already, armWatchdog);
        return;
      }
      r := FreezeLater(pid, armWatchdog, old(table), old(clock));
    }

    /** The rest of a suspend, some time after a table `t` of time `at`. */
    method FreezeLater(pid: Pid, armWatchdog: bool, ghost t: Procs, ghost at: nat) returns (r: SuspendResult)
      requires Valid() && at <= clock && Born(t, at) && Trails(t, table, at)
      modifies this
      ensures Valid() && clock >= old(clock) && !r.idempotent && !r.adopted
      ensures Answered(r, pid, old(signals)) && r.refused != Some(WrongProcess)
      ensures r.refused == Some(Vanished) ==> r.observed == None && exists u: Procs :: Trails(t, u, at) && pid !in u
      ensures r.refused == Some(Unwatchable) ==> r.observed == None && armWatchdog && armed == old(armed) && LaunchMissed(old(launches))
      ensures r.ok ==> r.observed.Some? && r.observed.value.state == Frozen && |r.observed.value.rows| == |r.observed.value.pids|
      ensures r.ok ==> r.observed.value.at <= clock && at < r.enumeratedAt <= clock && pid in r.signalled
      ensures !r.ok ==> (tokens == old(tokens) || (armWatchdog && tokens == old(tokens) - {pid})) && armed <= old(armed) + {issued}
      ensures r.ok && !armWatchdog ==> tokens == old(tokens)
      ensures r.ok && armWatchdog ==>
                && r.runid == Some(issued) && issued > old(issued)
                && tokens == old(tokens)[pid := issued] && armed == old(armed) + {issued}
      ensures old(Quiet(table)) && !r.ok ==> Quiet(table)
      ensures old(Quiet(table)) && r.ok ==>
                && Uniform(table) && TreeStopped(table, pid, r.observed.value.at)
                && (forall p | p in table && Hot(table[p]) :: p in r.signalled)
                && CameFrom(t, at, table, pid, r.signalled, r.enumeratedAt)
    {
      ghost var before, now := table, clock;
      Drift();
      DriftKeeps(before, table, now);
      TrailsStep(t, before, table, at, now);
      ghost var t0 := table;
      r := FreshFreeze(pid, armWatchdog);
      assert r.ok ==> Enumerated(t0, pid, r.signalled, r.enumeratedAt);
    }

    /** Enumerates the tree and resumes it, last first; the machine drifts before each of the two. */
    method SweepUp(pid: Pid) returns (pids: seq<Pid>, at: nat)
      requires Valid()
      modifies this`table, this`clock, this`signals
      ensures signals == old(signals) + Downs(pids)
      ensures Valid() && old(clock) <= at <= clock
      ensures old(Uniform(table)) ==>
                && Uniform(table) && Resumed(old(table), old(clock), table, pid, pids, at)
                && (forall p | InTree(table, pid, p) :: !Hot(table[p]))
    {
      ghost var t, now := table, clock;
      TrailsRefl(t, now);
      TimePasses(t, now);
      ghost var v := table;
      DriftTrails(t, v, now);
      at := clock;
      pids := TreePids(pid);
      TimePasses(v, at);
      ghost var w, later := table, clock;
      ResumeAll(pids);
      if Uniform(t) {
        NothingResumed(v, w, at);
        ResumedAfterDrift(v, w, table, pids, at, later);
        ResumedTreeIsCold(v, table, pid, pids, at);
        assert Enumerated(v, pid, pids, at);
      }
    }

    /**
      Unfreezes the tree of `pid`, then releases the token.  From a uniform machine the processes still
      suspended afterwards are exactly those suspended before the call, still alive, and outside the
      tree as enumerated; the machine drifts before the enumeration and before the first signal.
     */
    method ResumeTree(pid: Pid, created: Option<nat>, runid: Option<RunId>) returns (r: ResumeResult)
      requires Valid()
      modifies this`table, this`clock, this`tokens, this`signals
      ensures Valid() && clock >= old(clock)
      ensures signals == old(signals) + if r.observed.Some? then Downs(r.signalled) else []
      ensures r.observed.Some? ==> r.ok == (r.observed.value.state != Frozen)
      ensures var mine := pid in old(tokens) && (runid == None || runid.value == old(tokens)[pid]);
              && tokens == (if r.ok && mine then old(tokens) - {pid} else old(tokens))
              && (r.observed.Some? ==> (r.released <==> r.ok && mine))
      ensures r.observed == None ==> table == old(table) && r.ok && r.released
      ensures r.observed.Some? <==> Matches(old(table), pid, created)
      ensures old(Uniform(table)) && r.observed.Some? ==>
                && r.ok && Uniform(table)
                && Resumed(old(table), old(clock), table, pid, r.signalled, r.enumeratedAt)
                && Leftover(old(table), table, r.signalled, old(clock))
    {
      var may := FingerprintMatches(pid, created);
      if !may {
        var gone := Disarm(pid, runid);
        return ResumeResult(true, None, true, [], clock);
      }
      var pids, at := SweepUp(pid);
      ghost var mid, later := table, clock;
      var observed := ObserveTreeState(pid);
      if old(Uniform(table)) {
        ResumedTrails(old(table), old(clock), mid, table, pid, pids, at, later);
        ResumedLeaves(old(table), old(clock), table, pid, pids, at);
      }
      if observed.state == Frozen {
        return ResumeResult(false, Some(observed), false, pids, at);
      }
      var released := Disarm(pid, runid);
      return ResumeResult(true, Some(observed), released, pids, at);
    }

    /** Drift while a tree is frozen: it stays stopped and whole, and nothing else becomes suspended. */
    method FreezeLasts(ghost t0: Procs, ghost pid: Pid, ghost signalled: seq<Pid>, ghost at: nat, ghost seen: nat)
      requires Valid() && at <= clock && Kept(t0, table, at) && Uniform(table)
      requires TreeStopped(table, pid, seen) && seen <= clock
      requires forall p | p in table && Hot(table[p]) :: p in signalled
      modifies this`table, this`clock
      ensures Valid() && clock >= old(clock) && Kept(t0, table, at) && Uniform(table) && TreeStopped(table, pid, seen)
      ensures forall p | p in table && Hot(table[p]) :: p in signalled
    {
      ghost var hot, now := table, clock;
      TimePasses(t0, at);
      DriftTrails(hot, table, now);
      StoppedLasts(hot, table, now, pid, seen);
    }

    /**
      The two calls one after the other, with the machine drifting in between and inside them; `frozen`
      is the table when the resume starts, at time `later`.  From a quiet machine: a refused suspend
      leaves it quiet; otherwise the tree is still stopped when the resume starts.  If the resume then
      finds the recorded root, every suspend count is zero again when no process of the suspended tree
      has died, and in any case exactly when each one that lives was enumerated again; if it does not,
      everything stays as it was.
     */
    method SuspendThenResume(pid: Pid, created: Option<nat>)
      returns (s: SuspendResult, r: Option<ResumeResult>, ghost frozen: Procs, ghost later: nat)
      requires Valid() && Quiet(table)
      modifies this
      ensures Valid() && (s.ok <==> r.Some?)
      ensures !s.ok ==> Quiet(table)
      ensures s.ok ==>
                && old(clock) < s.enumeratedAt <= later && Born(frozen, later) && Uniform(frozen)
                && CameFrom(old(table), old(clock), frozen, pid, s.signalled, s.enumeratedAt)
                && s.observed.Some? && TreeStopped(frozen, pid, s.observed.value.at)
                && (forall p | p in frozen && Hot(frozen[p]) :: p in s.signalled)
      ensures s.ok ==> r.value.ok && tokens == old(tokens) - {pid}
      ensures s.ok ==> (r.value.observed.Some? <==> Matches(frozen, pid, created))
      ensures s.ok ==> signals == old(signals) + Ups(s.signalled) + if r.value.observed.Some? then Downs(r.value.signalled) else []
      ensures s.ok && r.value.observed == None ==> table == frozen
      ensures s.ok && r.value.observed.Some? ==>
                && Resumed(frozen, later, table, pid, r.value.signalled, r.value.enumeratedAt)
                && (Quiet(table) <==> Covers(frozen, table, r.value.signalled))
                && (AllLive(table, s.signalled, s.enumeratedAt) ==> Quiet(table))
    {
      s := SuspendTree(pid, created, true);
      if !s.ok {
        return s, None, table, clock;
      }
      ghost var t0: Procs :| Enumerated(t0, pid, s.signalled, s.enumeratedAt) && old(clock) <= s.enumeratedAt
                             && Trails(old(table), t0, old(clock)) && Kept(t0, table, s.enumeratedAt);
      FreezeLasts(t0, pid, s.signalled, s.enumeratedAt, s.observed.value.at);
      frozen, later := table, clock;
      var res := ResumeTree(pid, created, s.runid);
      if res.observed.Some? {
        BackToQuiet(t0, frozen, later, table, pid, s.signalled, res.signalled, s.enumeratedAt, res.enumeratedAt);
        LeftoverQuiet(frozen, table, res.signalled, later);
      }
      r := Some(res);
    }
  }

  // ---------------------------------------------------------------- how tables trail one another

  /** `u` came out of `t` after time `at`: an old process is the same one, unchanged if it was
      stopped, no stopped process had a child, and nothing became suspended. */
  ghost predicate Trails(t: Procs, u: Procs, at: nat) {
    && (forall p | p in u && u[p].created <= at ::
          SameProcess(t, u, p) && u[p].ppid == t[p].ppid && (Stopped(t[p]) ==> u[p] == t[p]))
    && (forall p | p in u && u[p].created > at :: !(SameProcess(t, u, u[p].ppid) && Stopped(t[u[p].ppid])))
    && (forall p | p in u && Hot(u[p]) :: SameProcess(t, u, p) && Hot(t[p]))
  }

  /** Old processes of `u` are the same in `t`, under the same parents. */
  ghost predicate Kept(t: Procs, u: Procs, at: nat) {
    forall p | p in u && u[p].created <= at :: SameProcess(t, u, p) && u[p].ppid == t[p].ppid
  }

  lemma {:induction false} KeptTwice(t: Procs, u: Procs, v: Procs, at: nat, now: nat)
    requires Kept(t, u, at) && Kept(u, v, now) && at <= now
    ensures Kept(t, v, at)
  {
  }

  lemma {:induction false} ResumedTrails(t: Procs, now: nat, u: Procs, v: Procs, pid: Pid, pids: seq<Pid>, at: nat, later: nat)
    requires Resumed(t, now, u, pid, pids, at) && Trails(u, v, later) && Uniform(u) && at <= later
    ensures Resumed(t, now, v, pid, pids, at)
  {
    var w: Procs :| Enumerated(w, pid, pids, at) && now <= at && Trails(t, w, now) && Uniform(w) && Leftover(w, u, pids, at);
    LeftoverTrails(w, u, v, pids, at, later);
  }

  /** What was suspended before the resume began and lives on stays suspended unless it was enumerated. */
  lemma {:induction false} ResumedLeaves(t: Procs, now: nat, u: Procs, pid: Pid, pids: seq<Pid>, at: nat)
    requires Resumed(t, now, u, pid, pids, at) && Uniform(t) && Born(t, now)
    ensures Leftover(t, u, pids, now)
  {
    var v: Procs :| Enumerated(v, pid, pids, at) && now <= at && Trails(t, v, now) && Uniform(v) && Leftover(v, u, pids, at);
    KeptTwice(t, v, u, now, at);
    forall p | p in u ensures Hot(u[p]) <==> SameProcess(t, u, p) && Hot(t[p]) && p !in pids {
      if SameProcess(t, u, p) && Hot(t[p]) {
        HotIsOne(t, p);
        assert SameProcess(v, u, p) && SameProcess(t, v, p);
      }
    }
  }

  /** What is stopped stays stopped, and stays the whole tree. */
  lemma {:induction false} StoppedLasts(t: Procs, u: Procs, now: nat, root: Pid, seen: nat)
    requires Uniform(t) && Born(t, now) && Trails(t, u, now) && TreeStopped(t, root, seen) && seen <= now
    ensures TreeStopped(u, root, seen)
  {
    if root in u && u[root].created <= seen {
      assert SameProcess(t, u, root);
      forall p | InTree(u, root, p) ensures SeenStopped(u[p]) {
        if p != root {
          var path :| Chain(Rows(u), path) && path[0] == root && path[|path| - 1] == p;
          PathStopped(t, u, now, root, path);
        }
      }
    }
  }

  /** Drift alone is a resume of nothing. */
  lemma {:induction false} NothingResumed(t: Procs, u: Procs, at: nat)
    requires Born(t, at) && Drifts(t, u, at) && Uniform(t)
    ensures Leftover(t, u, [], at)
  {
    DriftTrails(t, u, at);
    assert Leftover(t, t, [], at);
    LeftoverTrails(t, t, u, [], at, at);
  }

  /** What is left of `t` after a drift to `u` and a resume of `pids` is what was outside `pids`. */
  lemma {:induction false} ResumedAfterDrift(t: Procs, u: Procs, v: Procs, pids: seq<Pid>, at: nat, now: nat)
    requires Born(t, at) && Leftover(t, u, [], at) && Leftover(u, v, pids, now) && at <= now
    ensures Leftover(t, v, pids, at)
  {
    KeptTwice(t, u, v, at, now);
  }

  lemma {:induction false} TrailsRefl(t: Procs, at: nat)
    requires Born(t, at)
    ensures Trails(t, t, at)
  {
  }

  lemma {:induction false} DriftTrails(t: Procs, u: Procs, now: nat)
    requires Drifts(t, u, now) && Born(t, now)
    ensures Trails(t, u, now)
  {
    forall p | p in u && Hot(u[p]) ensures SameProcess(t, u, p) && Hot(t[p]) {
      var tid :| tid in u[p].threads && u[p].threads[tid].count > 0;
      assert SameProcess(t, u, p) && Evolves(t[p], u[p]);
      assert tid in t[p].threads && t[p].threads[tid] == u[p].threads[tid];
    }
  }

  lemma {:induction false} TrailsStep(t: Procs, u: Procs, v: Procs, at: nat, now: nat)
    requires Trails(t, u, at) && Drifts(u, v, now) && Born(t, at) && Born(u, now) && at <= now
    ensures Trails(t, v, at)
  {
    DriftTrails(u, v, now);
  }

  lemma {:induction false} DriftKeeps(t: Procs, u: Procs, now: nat)
    requires Drifts(t, u, now)
    ensures Uniform(t) ==> Uniform(u)
    ensures Quiet(t) ==> Quiet(u)
  {
  }

  lemma {:induction false} FrozenIsHot(t: Procs, p: Pid)
    ensures ReadingOf(t, p) == Frozen ==> Hot(t[p])
  {
  }

  /** What a measurement that began in `first` has established by now. */
  ghost predicate RowsOk(first: Procs, cur: Procs, pids: seq<Pid>, rows: seq<Reading>, at: nat) {
    && |rows| <= |pids|
    && Trails(first, cur, at)
    && (Quiet(first) ==> Quiet(cur))
    && ((forall p | p in pids :: p in first && !Hot(first[p])) ==> forall k | 0 <= k < |rows| :: rows[k] != Frozen)
    && (Uniform(first) ==>
          && Uniform(cur)
          && forall k | 0 <= k < |rows| && rows[k] in {Gone, Frozen} && pids[k] in cur && cur[pids[k]].created <= at ::
               SeenStopped(cur[pids[k]]))
  }

  lemma {:induction false} RowsStep(first: Procs, cur: Procs, next: Procs, pids: seq<Pid>, rows: seq<Reading>, r: Reading, at: nat, now: nat)
    requires RowsOk(first, cur, pids, rows, at) && |rows| < |pids| && r == ReadingOf(cur, pids[|rows|])
    requires Drifts(cur, next, now) && Born(first, at) && Born(cur, now) && at <= now
    ensures RowsOk(first, next, pids, rows + [r], at)
  {
    DriftKeeps(cur, next, now);
    TrailsStep(first, cur, next, at, now);
    assert pids[|rows|] in pids;
    FrozenIsHot(cur, pids[|rows|]);
    if Uniform(first) {
      ReadStopped(cur, pids[|rows|]);
      var more := rows + [r];
      forall k | 0 <= k < |more| && more[k] in {Gone, Frozen} && pids[k] in next && next[pids[k]].created <= at
        ensures SeenStopped(next[pids[k]])
      {
        assert SameProcess(cur, next, pids[k]);
        assert more[k] == if k < |rows| then rows[k] else r;
        assert SeenStopped(cur[pids[k]]);
      }
    }
  }

  lemma {:induction false} FrozenTree(first: Procs, cur: Procs, pid: Pid, pids: seq<Pid>, rows: seq<Reading>, at: nat)
    requires RowsOk(first, cur, pids, rows, at) && |rows| == |pids| && Verdict(rows) == Frozen
    requires forall p :: p in pids <==> InTree(first, pid, p)
    ensures Uniform(first) ==> TreeStopped(cur, pid, at)
    ensures !(forall p | InTree(first, pid, p) :: !Hot(first[p]))
  {
    if Uniform(first) {
      forall p | p in pids && p in cur && cur[p].created <= at ensures SeenStopped(cur[p]) {
        var k :| 0 <= k < |pids| && pids[k] == p;
        assert rows[k] in {Gone, Frozen};
      }
      WholeTree(first, cur, at, pid, pids);
    }
  }

  /** When every old process of the tree measured in `t` is stopped in `u`, the tree of `u` holds no other. */
  lemma {:induction false} PathStopped(t: Procs, u: Procs, at: nat, root: Pid, path: seq<Pid>)
    requires Uniform(t) && Trails(t, u, at)
    requires forall p | InTree(t, root, p) && p in u && u[p].created <= at :: SeenStopped(u[p])
    requires root in u && u[root].created <= at
    requires Chain(Rows(u), path) && path[0] == root
    ensures var p := path[|path| - 1]; p in u && u[p].created <= at && InTree(t, root, p)
    decreases |path|
  {
    if |path| > 1 {
      var front, p := path[..|path| - 1], path[|path| - 1];
      assert Chain(Rows(u), front);
      PathStopped(t, u, at, root, front);
      var q := path[|path| - 2];
      assert q == front[|front| - 1] && Edge(Rows(u), q, p);
      assert SeenStopped(u[q]);
      HotIsOne(t, q);
      assert Edge(Rows(t), q, p);
      if q == root {
        assert Chain(Rows(t), [root, p]) && [root, p][0] == root;
      } else {
        ReachableStep(Rows(t), root, q, p);
      }
    }
  }

  lemma {:induction false} WholeTree(t: Procs, u: Procs, at: nat, root: Pid, pids: seq<Pid>)
    requires Uniform(t) && Trails(t, u, at)
    requires forall p :: p in pids <==> InTree(t, root, p)
    requires forall p | p in pids && p in u && u[p].created <= at :: SeenStopped(u[p])
    ensures TreeStopped(u, root, at)
  {
    if root in u && u[root].created <= at {
      forall p | InTree(u, root, p) ensures SeenStopped(u[p]) {
        if p != root {
          var path :| Chain(Rows(u), path) && path[0] == root && path[|path| - 1] == p;
          PathStopped(t, u, at, root, path);
        }
      }
    }
  }

  /** In a uniform table a frozen reading means wholly stopped. */
  lemma {:induction false} ReadStopped(t: Procs, p: Pid)
    requires Uniform(t)
    ensures ReadingOf(t, p) == Frozen ==> SeenStopped(t[p])
  {
  }

  // ---------------------------------------------------------------- signals

  lemma {:induction false} SuspendOneKeeps(t: Procs, p: Pid, before: seq<Pid>)
    requires Uniform(t) && p !in before
    requires forall q | q in t && Hot(t[q]) :: q in before
    ensures var u := Signal(t, p, true);
            Uniform(u) && forall q | q in u && Hot(u[q]) :: q in before || q == p
  {
    var u := Signal(t, p, true);
    if p in t && t[p].signalable {
      HotIsOne(t, p);
      assert AllCounts(u[p], 1);
    }
  }

  /** After resuming `pids` out of `t`, what is still suspended in `u`: the old suspended processes outside `pids`. */
  ghost predicate Leftover(t: Procs, u: Procs, pids: seq<Pid>, at: nat) {
    && Kept(t, u, at)
    && (forall p | p in u :: Hot(u[p]) <==> SameProcess(t, u, p) && Hot(t[p]) && p !in pids)
  }

  lemma {:induction false} ResumeOneKeeps(t: Procs, u: Procs, p: Pid, done: seq<Pid>, at: nat)
    requires Uniform(u) && Leftover(t, u, done, at)
    ensures var v := Signal(u, p, false);
            Uniform(v) && Leftover(t, v, [p] + done, at)
  {
    var v := Signal(u, p, false);
    if p in u && t != u {
      assert p in v;
    }
    if p in u {
      HotIsOne(u, p);
      assert AllCounts(v[p], 0) && !Hot(v[p]);
    }
  }

  /** In a uniform table a suspended process is stopped, every count is one, and it can be resumed. */
  lemma {:induction false} HotIsOne(t: Procs, p: Pid)
    requires Uniform(t) && p in t
    ensures if Hot(t[p]) then Stopped(t[p]) && AllCounts(t[p], 1) && t[p].signalable else AllCounts(t[p], 0)
  {
    assert !Hot(t[p]) ==> forall tid | tid in t[p].threads :: t[p].threads[tid].count == 0;
  }

  lemma {:induction false} LeftoverTrails(t: Procs, u: Procs, v: Procs, pids: seq<Pid>, at: nat, now: nat)
    requires Uniform(u) && Born(t, at) && at <= now
    requires Leftover(t, u, pids, at) && Trails(u, v, now)
    ensures Leftover(t, v, pids, at)
  {
    forall p | p in v ensures Hot(v[p]) <==> SameProcess(t, v, p) && Hot(t[p]) && p !in pids {
      if SameProcess(t, v, p) {
        assert SameProcess(u, v, p);
        HotIsOne(u, p);
      }
    }
  }

  lemma {:induction false} NothingLeft(t: Procs, u: Procs, pids: seq<Pid>, at: nat)
    requires Uniform(u) && Leftover(t, u, pids, at)
    requires forall p | p in t && Hot(t[p]) :: p in pids
    ensures Quiet(u)
  {
    forall p | p in u ensures AllCounts(u[p], 0) {
      HotIsOne(u, p);
    }
  }

  /** A chain that ends at an old process is a chain of old processes. */
  lemma {:induction false} OldPath(t: Procs, u: Procs, at: nat, path: seq<Pid>)
    requires Kept(t, u, at) && Chain(Rows(u), path)
    requires path[|path| - 1] in u && u[path[|path| - 1]].created <= at
    ensures Chain(Rows(t), path) && path[0] in t
    decreases |path|
  {
    if |path| > 1 {
      var front := path[..|path| - 1];
      assert Edge(Rows(u), path[|path| - 2], path[|path| - 1]);
      assert Chain(Rows(u), front);
      OldPath(t, u, at, front);
      forall i | 0 <= i < |path| - 1 ensures Edge(Rows(t), path[i], path[i + 1]) {
        if i < |path| - 2 {
          assert front[i] == path[i] && front[i + 1] == path[i + 1];
          assert Edge(Rows(t), front[i], front[i + 1]);
        }
      }
    } else {
      assert SameProcess(t, u, path[0]);
    }
  }

  lemma {:induction false} OldInTree(t: Procs, u: Procs, at: nat, root: Pid, p: Pid)
    requires Kept(t, u, at) && InTree(u, root, p) && u[p].created <= at
    ensures InTree(t, root, p)
  {
    if p != root {
      var path :| Chain(Rows(u), path) && path[0] == root && path[|path| - 1] == p;
      OldPath(t, u, at, path);
    }
  }

  lemma {:induction false} ResumedTreeIsCold(t: Procs, u: Procs, root: Pid, pids: seq<Pid>, at: nat)
    requires Born(t, at) && Leftover(t, u, pids, at)
    requires forall p :: p in pids <==> InTree(t, root, p)
    ensures forall p | InTree(u, root, p) :: !Hot(u[p])
  {
    forall p | InTree(u, root, p) ensures !Hot(u[p]) {
      if Hot(u[p]) {
        OldInTree(t, u, at, root, p);
      }
    }
  }

  // ---------------------------------------------------------------- suspend, then resume

  /** What a resume undoes, exactly: the machine `u` after it is quiet if and only if every
      suspended process that lives on was in the tree as re-enumerated. */
  lemma {:induction false} ResumeQuietsExactly(t: Procs, u: Procs, root: Pid, pids: seq<Pid>, at: nat)
    requires Uniform(u) && Leftover(t, u, pids, at) && Enumerated(t, root, pids, at)
    ensures Quiet(u) <==> forall p | p in t && Hot(t[p]) && SameProcess(t, u, p) :: InTree(t, root, p)
  {
    LeftoverQuiet(t, u, pids, at);
  }

  lemma {:induction false} LeftoverQuiet(t: Procs, u: Procs, pids: seq<Pid>, at: nat)
    requires Uniform(u) && Leftover(t, u, pids, at)
    ensures Quiet(u) <==> Covers(t, u, pids)
  {
    if Covers(t, u, pids) {
      forall p | p in u ensures AllCounts(u[p], 0) {
        HotIsOne(u, p);
      }
    } else {
      var p :| p in t && Hot(t[p]) && SameProcess(t, u, p) && p !in pids;
      assert Hot(u[p]);
    }
  }

  /** If no process of the suspended tree has died by then, it is still one tree under the root. */
  lemma {:induction false} TreeHoldsTogether(t0: Procs, t: Procs, root: Pid, pids: seq<Pid>, at0: nat)
    requires Enumerated(t0, root, pids, at0) && Kept(t0, t, at0)
    requires forall p | p in pids :: SameProcess(t0, t, p)
    ensures forall p | p in pids :: InTree(t, root, p)
  {
    forall p | p in pids ensures InTree(t, root, p) {
      if p != root {
        var path :| Chain(Rows(t0), path) && path[0] == root && path[|path| - 1] == p;
        assert InTree(t0, root, root);
        PathSurvives(t0, t, at0, root, pids, path);
      }
    }
  }

  lemma {:induction false} PathSurvives(t0: Procs, t: Procs, at0: nat, root: Pid, pids: seq<Pid>, path: seq<Pid>)
    requires Enumerated(t0, root, pids, at0) && Kept(t0, t, at0) && root in t0
    requires forall p | p in pids :: SameProcess(t0, t, p)
    requires Chain(Rows(t0), path) && path[0] == root
    ensures Chain(Rows(t), path)
    decreases |path|
  {
    if |path| > 1 {
      var front := path[..|path| - 1];
      var q, p := path[|path| - 2], path[|path| - 1];
      assert Edge(Rows(t0), q, p);
      assert Chain(Rows(t0), front);
      PathSurvives(t0, t, at0, root, pids, front);
      assert Reachable(Rows(t0), root, q) by {
        assert front[|front| - 1] == q && front[0] == root;
      }
      ReachableStep(Rows(t0), root, q, p);
      assert q in pids && p in pids;
      assert Edge(Rows(t), q, p);
      forall i | 0 <= i < |path| - 1 ensures Edge(Rows(t), path[i], path[i + 1]) {
        if i < |path| - 2 {
          assert Edge(Rows(t), front[i], front[i + 1]);
        }
      }
    }
  }

  /** Suspend then resume is the identity on suspend counts when no process of the tree died in
      between: from the quiet machine `t0`, through the frozen `t`, to `u` after the resume. */
  lemma {:induction false} SuspendResumeIdentity(t0: Procs, t: Procs, u: Procs, root: Pid, frozen: seq<Pid>, resumed: seq<Pid>, at0: nat, at: nat)
    requires Enumerated(t0, root, frozen, at0) && Kept(t0, t, at0)
    requires forall p | p in t && Hot(t[p]) :: p in frozen
    requires forall p | p in frozen :: SameProcess(t0, t, p)
    requires Enumerated(t, root, resumed, at) && Leftover(t, u, resumed, at) && Uniform(u)
    ensures Quiet(u)
  {
    TreeHoldsTogether(t0, t, root, frozen, at0);
    ResumeQuietsExactly(t, u, root, resumed, at);
  }

  /** From the enumeration of the suspend (`t0`) through the resume's start (`t`) to its end (`u`). */
  lemma {:induction false} BackToQuiet(t0: Procs, t: Procs, now: nat, u: Procs, root: Pid, frozen: seq<Pid>, resumed: seq<Pid>, at0: nat, at: nat)
    requires Enumerated(t0, root, frozen, at0) && Kept(t0, t, at0) && at0 <= now
    requires forall p | p in t && Hot(t[p]) :: p in frozen
    requires Resumed(t, now, u, root, resumed, at) && Uniform(u)
    ensures AllLive(u, frozen, at0) ==> Quiet(u)
  {
    if AllLive(u, frozen, at0) {
      var v: Procs :| Enumerated(v, root, resumed, at) && now <= at && Trails(t, v, now) && Uniform(v) && Leftover(v, u, resumed, at);
      KeptTwice(t0, t, v, at0, now);
      KeptTwice(t0, v, u, at0, at);
      forall p | p in frozen ensures SameProcess(t0, v, p) {
        assert SameProcess(v, u, p) && SameProcess(t0, u, p);
      }
      SuspendResumeIdentity(t0, v, u, root, frozen, resumed, at0, at);
    }
  }

  // ---------------------------------------------------------------- a death in between

  /** A process recorded in `t` at time `at` passes the fingerprint check later exactly when it is still
      that process, or its pid now names one started after `at` within the tolerance of its own start. */
  lemma {:induction false} FingerprintIdentifiesExactly(t: Procs, u: Procs, at: nat, p: Pid)
    requires Born(t, at) && Kept(t, u, at) && p in t && p != 0
    ensures Matches(u, p, Some(t[p].created)) <==>
              SameProcess(t, u, p) || (p in u && at < u[p].created < t[p].created + TOLERANCE)
    ensures at >= t[p].created + TOLERANCE ==> (Matches(u, p, Some(t[p].created)) <==> SameProcess(t, u, p))
  {
    assert p in u && u[p].created <= at ==> SameProcess(t, u, p);
  }

  function SignalAll(t: Procs, pids: seq<Pid>): Procs {
    if pids == [] then t else Signal(SignalAll(t, pids[..|pids| - 1]), pids[|pids| - 1], true)
  }

  lemma {:induction false} OneThread(ppid: Pid, created: nat)
    ensures SeenStopped(Chained(ppid, created, 1)) && Hot(Chained(ppid, created, 1))
  {
    var p := Chained(ppid, created, 1);
    assert 7 in p.threads && p.threads[7].readable && p.threads[7].count > 0;
  }

  /** A process whose parent is gone is reached by no chain. */
  lemma {:induction false} OrphanIsOut(t: Procs)
    requires 2 !in t && 3 in t && t[3].ppid == 2
    ensures !InTree(t, 1, 3)
  {
    forall path | Chain(Rows(t), path) && path[0] == 1 ensures path[|path| - 1] != 3 {
      assert |path| > 1 ==> Edge(Rows(t), path[|path| - 2], path[|path| - 1]);
    }
  }

  /** The condition is needed: suspend a chain of three, kill its middle process, and the last one is out
      of the tree, so no resume of the root reaches it. */
  lemma {:induction false} OrphanStaysSuspended() returns (t0: Procs, frozen: Procs, t: Procs)
    ensures Quiet(t0) && Enumerated(t0, 1, [1, 2, 3], 3)
    ensures frozen == SignalAll(t0, [1, 2, 3]) && TreeStopped(frozen, 1, 3)
    ensures t == frozen - {2} && Drifts(frozen, t, 3)
    ensures Uniform(t) && 3 in t && Hot(t[3]) && !InTree(t, 1, 3)
    ensures forall u, pids, at | Enumerated(t, 1, pids, at) && Leftover(t, u, pids, at) && SameProcess(t, u, 3) :: !Quiet(u)
  {
    t0 := map[1 := Chained(0, 1, 0), 2 := Chained(1, 2, 0), 3 := Chained(2, 3, 0)];
    frozen := map[1 := Chained(0, 1, 1), 2 := Chained(1, 2, 1), 3 := Chained(2, 3, 1)];
    t := frozen - {2};
    ChainEnumerated(t0);
    SignalChain(t0, frozen);
    KillMiddle(frozen, t);
    OrphanStays(t);
  }

  lemma {:induction false} KillMiddle(frozen: Procs, t: Procs)
    requires frozen == map[1 := Chained(0, 1, 1), 2 := Chained(1, 2, 1), 3 := Chained(2, 3, 1)] && t == frozen - {2}
    ensures TreeStopped(frozen, 1, 3) && Drifts(frozen, t, 3) && Uniform(t)
    ensures 2 !in t && 3 in t && t[3].ppid == 2 && Hot(t[3])
  {
    OneThread(0, 1);
    OneThread(1, 2);
    OneThread(2, 3);
  }

  lemma {:induction false} OrphanStays(t: Procs)
    requires 2 !in t && 3 in t && t[3].ppid == 2 && Hot(t[3])
    ensures !InTree(t, 1, 3)
    ensures forall u, pids, at | Enumerated(t, 1, pids, at) && Leftover(t, u, pids, at) && SameProcess(t, u, 3) :: !Quiet(u)
  {
    OrphanIsOut(t);
    forall u, pids, at | Enumerated(t, 1, pids, at) && Leftover(t, u, pids, at) && SameProcess(t, u, 3) ensures !Quiet(u) {
      assert Hot(u[3]);
    }
  }

  /** A process with one thread. */
  function Chained(ppid: Pid, created: nat, count: nat): Proc {
    Proc(ppid, created, true, true, map[7 := Thread(count, true)])
  }

  lemma {:induction false} SignalOne(ppid: Pid, created: nat)
    ensures WithCounts(Chained(ppid, created, 0), true) == Chained(ppid, created, 1)
  {
  }

  lemma {:induction false} SignalChain(t0: Procs, frozen: Procs)
    requires t0 == map[1 := Chained(0, 1, 0), 2 := Chained(1, 2, 0), 3 := Chained(2, 3, 0)]
    requires frozen == map[1 := Chained(0, 1, 1), 2 := Chained(1, 2, 1), 3 := Chained(2, 3, 1)]
    ensures SignalAll(t0, [1, 2, 3]) == frozen
  {
    SignalOne(0, 1);
    SignalOne(1, 2);
    SignalOne(2, 3);
    assert [1, 2, 3][..2] == [1, 2] && [1, 2][..1] == [1] && [1][..0] == [];
    assert SignalAll(t0, []) == t0;
    assert SignalAll(t0, [1]) == t0[1 := Chained(0, 1, 1)];
    assert SignalAll(t0, [1, 2]) == t0[1 := Chained(0, 1, 1)][2 := Chained(1, 2, 1)];
  }

  lemma {:induction false} ChainEnumerated(t0: Procs)
    requires t0 == map[1 := Chained(0, 1, 0), 2 := Chained(1, 2, 0), 3 := Chained(2, 3, 0)]
    ensures Quiet(t0) && Enumerated(t0, 1, [1, 2, 3], 3)
  {
    assert Chain(Rows(t0), [1, 2]) && [1, 2][0] == 1 && [1, 2][|[1, 2]| - 1] == 2;
    assert Chain(Rows(t0), [1, 2, 3]) && [1, 2, 3][0] == 1 && [1, 2, 3][|[1, 2, 3]| - 1] == 3;
    forall p ensures p in [1, 2, 3] <==> InTree(t0, 1, p) {}
  }
}
