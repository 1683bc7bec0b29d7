/** The process-tree closure of the codex drill: which processes descend from a root. */
module Descendants {

  type Pid = int

  /** One line of the process table: the parent's pid and the creation time. */
  datatype Row = Row(ppid: Pid, created: int)

  type Table = map<Pid, Row>

  datatype Process = Process(pid: Pid, row: Row)

  /** `c` names `p` as its parent and was not created before it, so the pid was not reused. */
  predicate Edge(t: Table, p: Pid, c: Pid) {
    p in t && c in t && t[c].ppid == p && t[c].created >= t[p].created
  }

  ghost predicate Chain(t: Table, path: seq<Pid>) {
    |path| > 0 && forall i | 0 <= i < |path| - 1 :: Edge(t, path[i], path[i + 1])
  }

  /** Some chain of edges leads from `root` to `c`. */
  ghost predicate Reachable(t: Table, root: Pid, c: Pid) {
    exists path | Chain(t, path) :: path[0] == root && path[|path| - 1] == c
  }

  function Pids(found: seq<Process>): (r: seq<Pid>)
    ensures |r| == |found| && forall i | 0 <= i < |r| :: r[i] == found[i].pid
  {
    seq(|found|, i requires 0 <= i < |found| => found[i].pid)
  }

  ghost predicate Distinct<T>(s: seq<T>) {
    forall i, j | 0 <= i < j < |s| :: s[i] != s[j]
  }

  lemma {:induction false} ReachableStep(t: Table, root: Pid, p: Pid, c: Pid)
    requires Reachable(t, root, p) && Edge(t, p, c)
    ensures Reachable(t, root, c)
  {
    var path :| Chain(t, path) && path[0] == root && path[|path| - 1] == p;
    assert Chain(t, path + [c]);
    assert (path + [c])[0] == root;
  }

  /** A process is reached exactly when it names a reached process as its parent and is not older than it,
      whatever pids were reused. */
  lemma {:induction false} ReachedExactly(t: Table, root: Pid, c: Pid)
    requires root in t && c in t && c != root
    ensures Reachable(t, root, c) <==>
              var q := t[c].ppid; q in t && t[q].created <= t[c].created && Reachable(t, root, q)
  {
    var q := t[c].ppid;
    if Reachable(t, root, c) {
      var path :| Chain(t, path) && path[0] == root && path[|path| - 1] == c;
      var front := path[..|path| - 1];
      assert Edge(t, path[|path| - 2], path[|path| - 1]);
      assert Chain(t, front) && front[0] == root && front[|front| - 1] == q;
    }
    if q in t && t[q].created <= t[c].created && Reachable(t, root, q) {
      ReachableStep(t, root, q, c);
    }
  }

  /** Nothing that is reached is older than the root. */
  lemma {:induction false} ReachedIsYounger(t: Table, path: seq<Pid>)
    requires Chain(t, path) && path[0] in t
    ensures path[|path| - 1] in t && t[path[0]].created <= t[path[|path| - 1]].created
    decreases |path|
  {
    if |path| > 1 {
      ReachedIsYounger(t, path[..|path| - 1]);
      assert Edge(t, path[|path| - 2], path[|path| - 1]);
    }
  }

  /** A set that holds the root's children and is closed under edges holds everything reachable. */
  lemma {:induction false} ClosedHoldsPath(t: Table, root: Pid, s: set<Pid>, path: seq<Pid>)
    requires root in s
    requires forall p, c | p in s && Edge(t, p, c) :: c in s
    requires Chain(t, path) && path[0] == root
    ensures path[|path| - 1] in s
    decreases |path|
  {
    if |path| > 1 {
      var front := path[..|path| - 1];
      assert Chain(t, front);
      ClosedHoldsPath(t, root, s, front);
      assert Edge(t, path[|path| - 2], path[|path| - 1]);
    }
  }

  /**
    Every live descendant of `root`.  `order` is the order in which the process table is walked.
    The result holds, without duplicates, exactly the processes other than the root that a chain of
    edges reaches, also when the parent pids form cycles.
   */
  method Collect(rows: Table, order: seq<Pid>, root: Pid) returns (seen: seq<Process>)
    requires forall p :: p in order <==> p in rows
    ensures Distinct(Pids(seen))
    ensures forall x | x in seen :: x.pid in rows && x.row == rows[x.pid]
    ensures forall c :: c in Pids(seen) <==> root in rows && c != root && Reachable(rows, root, c)
  {
    seen := [];
    if root !in rows {
      forall c ensures !(root in rows && c != root && Reachable(rows, root, c)) {}
      return;
    }
    var todo := [root];
    ghost var closed: set<Pid> := {};       // pids whose children have all been looked at
    ghost var found: set<Pid> := {};
    assert Chain(rows, [root]);
    assert Reachable(rows, root, root) by {
      assert [root][0] == root;
    }
    while todo != []
      invariant Walk(rows, root, seen, found)
      invariant forall c :: c in closed || c in todo <==> c == root || c in found
      invariant forall p, c | p in closed && Edge(rows, p, c) :: c == root || c in found
      decreases 2 * (|rows| - |seen|) + |todo|
    {
      FoundFits(rows, root, seen, found);
      var par := todo[|todo| - 1];
      ghost var oldTodo := todo;
      todo := todo[..|todo| - 1];
      assert forall c :: c in oldTodo <==> c == par || c in todo;
      closed := closed + {par};
      assert Reachable(rows, root, par);
      ghost var seen0 := |seen|;
      seen, todo, found := LookAt(rows, order, root, par, seen, todo, found, closed);
      FoundFits(rows, root, seen, found);
    }
    FoundFits(rows, root, seen, found);
    forall c ensures c in Pids(seen) <==> c != root && Reachable(rows, root, c) {
      if c != root && Reachable(rows, root, c) {
        var path :| Chain(rows, path) && path[0] == root && path[|path| - 1] == c;
        ClosedHoldsPath(rows, root, found + {root}, path);
      }
    }
  }

  /** Looks at all children of `par`: those not seen before join both lists. */
  method LookAt(rows: Table, order: seq<Pid>, root: Pid, par: Pid, seen0: seq<Process>, todo0: seq<Pid>,
                ghost found0: set<Pid>, ghost closed: set<Pid>)
    returns (seen: seq<Process>, todo: seq<Pid>, ghost found: set<Pid>)
    requires (forall p :: p in order <==> p in rows) && Walk(rows, root, seen0, found0)
    requires par == root || par in found0
    requires forall c :: c in closed || c in todo0 <==> c == root || c in found0
    ensures Walk(rows, root, seen, found) && found0 <= found
    ensures |seen| - |seen0| == |todo| - |todo0| >= 0
    ensures forall c :: c in closed || c in todo <==> c == root || c in found
    ensures forall c | Edge(rows, par, c) :: c == root || c in found
  {
    seen, todo, found := seen0, todo0, found0;
    for i := 0 to |order|
      invariant Walk(rows, root, seen, found) && found0 <= found
      invariant |seen| - |seen0| == |todo| - |todo0| >= 0
      invariant forall c :: c in closed || c in todo <==> c == root || c in found
      invariant forall j | 0 <= j < i :: Edge(rows, par, order[j]) ==> order[j] == root || order[j] in found
    {
      var c := order[i];
      var isNew := c !in Pids(seen);
      if rows[c].ppid == par && c != root && rows[c].created >= rows[par].created && isNew {
        WalkGrows(rows, root, seen, found, par, c);
        seen := seen + [Process(c, rows[c])];
        todo := todo + [c];
        found := found + {c};
      }
    }
    forall c | Edge(rows, par, c) ensures c == root || c in found {
      var j :| 0 <= j < |order| && order[j] == c;
    }
  }

  /** What the walk has established about the processes seen so far. */
  ghost predicate Walk(rows: Table, root: Pid, seen: seq<Process>, found: set<Pid>) {
    && Distinct(Pids(seen))
    && (forall x | x in seen :: x.pid in rows && x.pid != root && x.row == rows[x.pid])
    && (forall c :: c in found <==> c in Pids(seen))
    && (forall c | c in found :: c in rows && c != root && Reachable(rows, root, c))
    && |found| == |seen|
    && root in rows && Reachable(rows, root, root)
  }

  lemma {:induction false} FoundFits(rows: Table, root: Pid, seen: seq<Process>, found: set<Pid>)
    requires Walk(rows, root, seen, found)
    ensures |seen| < |rows|
  {
    forall c | c in found + {root} ensures c in rows.Keys {}
    SubsetSmaller(found + {root}, rows.Keys);
    assert root !in found;
  }

  lemma {:induction false} WalkGrows(rows: Table, root: Pid, seen: seq<Process>, found: set<Pid>, par: Pid, c: Pid)
    requires Walk(rows, root, seen, found)
    requires par == root || par in found
    requires Edge(rows, par, c) && c != root && c !in Pids(seen)
    ensures Walk(rows, root, seen + [Process(c, rows[c])], found + {c})
  {
    ReachableStep(rows, root, par, c);
    assert Pids(seen + [Process(c, rows[c])]) == Pids(seen) + [c];
  }

  lemma {:induction false} SubsetSmaller<T>(a: set<T>, b: set<T>)
    requires a <= b
    ensures |a| <= |b|
  {
    if a != {} {
      var x :| x in a;
      SubsetSmaller(a - {x}, b - {x});
    }
  }

  predicate Runs(rows: Table, p: Process) {
    p.pid in rows && rows[p.pid].created == p.row.created
  }

  function StillRunning(rows: Table, procs: seq<Process>): seq<Process> {
    if procs == [] then []
    else
      var p := procs[|procs| - 1];
      StillRunning(rows, procs[..|procs| - 1]) + if Runs(rows, p) then [p] else []
  }

  /** The members of `procs` that still run, in their order: same pid and same creation time. */
  method Alive(rows: Table, procs: seq<Process>) returns (alive: seq<Process>)
    ensures alive == StillRunning(rows, procs)
    ensures forall p: Process :: p in alive <==> p in procs && p.pid in rows && rows[p.pid].created == p.row.created
    ensures Distinct(procs) ==> Distinct(alive)
    ensures IsSubsequence(alive, procs)
  {
    alive := [];
    ghost var at: seq<int> := [];
    for i := 0 to |procs|
      invariant alive == StillRunning(rows, procs[..i])
      invariant forall p :: p in alive <==> p in procs[..i] && Runs(rows, p)
      invariant Distinct(procs) ==> Distinct(alive)
      invariant Embeds(alive, procs, at) && forall k | 0 <= k < |at| :: at[k] < i
    {
      var p := procs[i];
      assert procs[..i + 1][..i] == procs[..i] && procs[..i + 1] == procs[..i] + [p];
      if p.pid in rows && rows[p.pid].created == p.row.created {
        assert Distinct(procs) ==> p !in procs[..i];
        alive := alive + [p];
        at := at + [i];
      }
    }
    assert procs[..|procs|] == procs;
  }

  /** `want` can be read off `got` at increasing positions. */
  ghost predicate IsSubsequence<T>(want: seq<T>, got: seq<T>) {
    exists at: seq<int> :: Embeds(want, got, at)
  }

  ghost predicate Embeds<T>(want: seq<T>, got: seq<T>, at: seq<int>) {
    && |at| == |want|
    && (forall i | 0 <= i < |at| :: 0 <= at[i] < |got| && got[at[i]] == want[i])
    && (forall i, j | 0 <= i < j < |at| :: at[i] < at[j])
  }

  /** One iterator over `got` serves all of `want`, so each match starts after the previous one; the
      greedy answer is right. */
  method Subsequence<T(==)>(want: seq<T>, got: seq<T>) returns (yes: bool)
    ensures yes <==> IsSubsequence(want, got)
  {
    var next := 0;                      // where the shared iterator stands
    ghost var at: seq<int> := [];
    for i := 0 to |want|
      invariant 0 <= next <= |got| && (i == 0 ==> next == 0)
      invariant Embeds(want[..i], got, at)
      invariant forall j | 0 <= j < |at| :: at[j] < next
      invariant forall other: seq<int> | Embeds(want[..i], got, other) :: i > 0 ==> other[i - 1] >= next - 1
    {
      ghost var start := next;
      while next < |got| && got[next] != want[i]
        invariant start <= next <= |got|
        invariant forall k | start <= k < next :: got[k] != want[i]
      {
        next := next + 1;
      }
      assert want[..i + 1] == want[..i] + [want[i]];
      forall other: seq<int> | Embeds(want[..i + 1], got, other)
        ensures next < |got| && other[i] >= next
      {
        assert Embeds(want[..i], got, other[..i]);
        assert got[other[i]] == want[i];
        if i > 0 {
          assert other[..i][i - 1] == other[i - 1] < other[i];
        }
        assert other[i] >= start;
      }
      forall other: seq<int> | Embeds(want, got, other)
        ensures Embeds(want[..i + 1], got, other[..i + 1])
      {
      }
      if next == |got| {
        return false;
      }
      at := at + [next];
      next := next + 1;
    }
    assert want[..|want|] == want;
    return true;
  }
}
