/**
  The channel registry: member lists kept in one file, changed by merging deltas against the current
  row under a lock.  Loading and writing the file are separate steps of each merging thread.
 */
module ChannelStore {
  import opened Options
  import opened Sets
  import Store = InboxStore

  datatype Row = Row(members: seq<string>, topic: string)

  type Rows = map<string, Row>

  /** What a caller sends: members to add, members to remove, and perhaps a topic. */
  datatype Delta = Delta(name: string, add: seq<string>, remove: seq<string>, topic: Option<string>)

  // ---------------------------------------------------------------- sorted member lists

  predicate Less(a: string, b: string) {
    b != [] && (a == [] || a[0] < b[0] || (a[0] == b[0] && Less(a[1..], b[1..])))
  }

  lemma {:induction false} LessTotal(a: string, b: string)
    ensures a == b || Less(a, b) || Less(b, a)
    ensures !(Less(a, b) && Less(b, a)) && !Less(a, a)
  {
    if a != [] {
      LessTotal(a[1..], if b == [] then [] else b[1..]);
      assert b != [] && a[0] == b[0] && a[1..] == b[1..] ==> a == [a[0]] + a[1..] == b;
    }
  }

  lemma {:induction false} LessTransitive(a: string, b: string, c: string)
    requires Less(a, b) && Less(b, c)
    ensures Less(a, c)
  {
    if a != [] && a[0] == b[0] == c[0] {
      LessTransitive(a[1..], b[1..], c[1..]);
    }
  }

  predicate Sorted(s: seq<string>) {
    forall i, j | 0 <= i < j < |s| :: Less(s[i], s[j])
  }

  function Insert(x: string, s: seq<string>): (r: seq<string>)
    requires Sorted(s)
    ensures Sorted(r) && forall y :: y in r <==> y == x || y in s
  {
    if s == [] then [x]
    else
      LessTotal(x, s[0]);
      if x == s[0] then s
      else if Less(x, s[0]) then
        InsertFront(x, s);
        [x] + s
      else
        var rest := Insert(x, s[1..]);
        assert forall y | y in rest :: Less(s[0], y);
        [s[0]] + rest
  }

  lemma {:induction false} InsertFront(x: string, s: seq<string>)
    requires Sorted(s) && s != [] && Less(x, s[0])
    ensures Sorted([x] + s)
  {
    forall j | 0 < j < |s| ensures Less(x, s[j]) {
      LessTransitive(x, s[0], s[j]);
    }
  }

  /** A set has one sorted listing, so a listing is right whichever way it was made. */
  lemma {:induction false} SortedUnique(a: seq<string>, b: seq<string>)
    requires Sorted(a) && Sorted(b) && forall x :: x in a <==> x in b
    ensures a == b
  {
    assert b != [] ==> b[0] in b;
    if a != [] {
      assert a[0] in b && b != [] && b[0] in a;
      var i :| 0 <= i < |a| && a[i] == b[0];
      var j :| 0 <= j < |b| && b[j] == a[0];
      LessTotal(a[0], b[0]);
      assert a[0] == b[0];
      forall x ensures x in a[1..] <==> x in b[1..] {
        LessTotal(a[0], a[0]);
        assert x in a[1..] ==> x in a && x != a[0];
        assert x in b[1..] ==> x in b && x != b[0];
        assert x in a && x != a[0] ==> x in a[1..];
        assert x in b && x != b[0] ==> x in b[1..];
      }
      SortedUnique(a[1..], b[1..]);
    }
  }

  function InsertAll(xs: seq<string>, s: seq<string>): (r: seq<string>)
    requires Sorted(s)
    ensures Sorted(r) && forall y :: y in r <==> y in xs || y in s
  {
    if xs == [] then s else Insert(xs[0], InsertAll(xs[1..], s))
  }

  // ---------------------------------------------------------------- merging

  function RowOf(rows: Rows, name: string): Row {
    if name in rows then rows[name] else Row([], "")
  }

  /** A member of the new row: there before or added under a real name, and not removed. */
  predicate Belongs(row: Row, d: Delta, m: string) {
    (m in row.members || (m in d.add && m != "")) && m !in d.remove
  }

  function Without(s: seq<string>, gone: seq<string>): (r: seq<string>)
    requires Sorted(s)
    ensures Sorted(r) && forall y :: y in r <==> y in s && y !in gone
  {
    if s == [] then []
    else
      var rest := Without(s[1..], gone);
      assert forall y | y in rest :: Less(s[0], y);
      if s[0] in gone then rest else [s[0]] + rest
  }

  function RealNames(xs: seq<string>): (r: seq<string>)
    ensures forall y :: y in r <==> y in xs && y != ""
  {
    if xs == [] then []
    else (if xs[0] == "" then [] else [xs[0]]) + RealNames(xs[1..])
  }

  function NewRow(row: Row, d: Delta): (r: Row)
    ensures Sorted(r.members) && forall m :: m in r.members <==> Belongs(row, d, m)
    ensures r.topic == if d.topic.Some? then d.topic.value else row.topic
  {
    Row(Without(InsertAll(RealNames(d.add), InsertAll(row.members, [])), d.remove),
        if d.topic.Some? then d.topic.value else row.topic)
  }

  function Merged(rows: Rows, d: Delta): Rows {
    rows[d.name := NewRow(RowOf(rows, d.name), d)]
  }

  /** The registry after merging deltas one after another. */
  function MergedAll(rows: Rows, ds: seq<Delta>): Rows {
    if ds == [] then rows else Merged(MergedAll(rows, ds[..|ds| - 1]), ds[|ds| - 1])
  }

  class Channels {
    var rows: Rows

    constructor ()
      ensures rows == map[]
    {
      rows := map[];
    }

    /** Merges one delta against the current row; the other channels are untouched.  A name that no
        recipient can have is refused. */
    method Merge(d: Delta) returns (r: Result<Row, Store.Error>)
      modifies this
      ensures r.Raised? <==> !Store.ValidRecipient(d.name)
      ensures r.Raised? ==> rows == old(rows)
      ensures r.Ok? ==> rows == Merged(old(rows), d) && r.value == rows[d.name]
      ensures r.Ok? ==> Sorted(r.value.members) && forall m :: m in r.value.members <==> Belongs(RowOf(old(rows), d.name), d, m)
    {
      if !Store.ValidRecipient(d.name) {
        return Raised(Store.BadRecipient);
      }
      var row := if d.name in rows then rows[d.name] else Row([], "");
      var members := set m | m in row.members;
      members := members + set m | m in d.add && m != "";
      members := members - set m | m in d.remove;
      var listing := SortedListing(members);
      SortedUnique(listing, NewRow(row, d).members);
      var merged := Row(listing, if d.topic.Some? then d.topic.value else row.topic);
      rows := rows[d.name := merged];
      return Ok(merged);
    }
  }

  method SortedListing(ms: set<string>) returns (r: seq<string>)
    ensures Sorted(r) && forall m :: m in r <==> m in ms
  {
    var any := Listed(ms);
    r := [];
    for i := 0 to |any|
      invariant Sorted(r) && forall m :: m in r <==> m in any[..i]
    {
      assert any[..i + 1] == any[..i] + [any[i]];
      r := Insert(any[i], r);
    }
    assert any[..|any|] == any;
  }

  // ---------------------------------------------------------------- merging threads

  type Thread = nat

  datatype Pc = Arrived(d: Delta) | Inside(d: Delta) | Loaded(d: Delta, snapshot: Rows) | Leaving

  /** `committed`: the deltas written so far, in the order of their writes. */
  datatype State = State(rows: Rows, holder: Option<Thread>, threads: map<Thread, Pc>, committed: seq<Delta>)

  datatype Label = Arrive(t: Thread, d: Delta) | Acquire(t: Thread) | Load(t: Thread) | Write(t: Thread) | Release(t: Thread)

  predicate Initial(s: State) {
    s.holder == None && s.threads == map[] && s.committed == []
  }

  /** A thread arrives with a delta whose name has been checked. */
  predicate Enabled(locked: bool, s: State, l: Label) {
    match l
    case Arrive(t, d) => t !in s.threads && Store.ValidRecipient(d.name)
    case Acquire(t) => t in s.threads && s.threads[t].Arrived? && (locked ==> s.holder == None)
    case Load(t) => t in s.threads && s.threads[t].Inside?
    case Write(t) => t in s.threads && s.threads[t].Loaded?
    case Release(t) => t in s.threads && s.threads[t].Leaving?
  }

  function Next(s: State, l: Label): State
    requires Enabled(false, s, l)
  {
    match l
    case Arrive(t, d) => s.(threads := s.threads[t := Arrived(d)])
    case Acquire(t) => s.(holder := Some(t), threads := s.threads[t := Inside(s.threads[t].d)])
    case Load(t) => s.(threads := s.threads[t := Loaded(s.threads[t].d, s.rows)])
    case Write(t) =>
      var d := s.threads[t].d;
      s.(rows := Merged(s.threads[t].snapshot, d), committed := s.committed + [d], threads := s.threads[t := Leaving])
    case Release(t) => s.(holder := None, threads := s.threads - {t})
  }

  predicate Possible(locked: bool, s: State, ls: seq<Label>)
    decreases |ls|
  {
    |ls| > 0 ==> Enabled(locked, s, ls[0]) && Possible(locked, Next(s, ls[0]), ls[1..])
  }

  function After(locked: bool, s: State, ls: seq<Label>): State
    requires Possible(locked, s, ls)
    decreases |ls|
  {
    if |ls| == 0 then s else After(locked, Next(s, ls[0]), ls[1..])
  }

  /** Whatever the interleaving, the registry holds every committed delta, applied in commit order. */
  ghost predicate AlwaysSerial(locked: bool) {
    forall s, ls | Initial(s) && Possible(locked, s, ls) ::
      After(locked, s, ls).rows == MergedAll(s.rows, After(locked, s, ls).committed)
  }

  predicate Inv(start: Rows, s: State) {
    && s.rows == MergedAll(start, s.committed)
    && (forall t | t in s.threads && !s.threads[t].Arrived? :: s.holder == Some(t))
    && (forall t | t in s.threads && s.threads[t].Loaded? :: s.threads[t].snapshot == s.rows)
  }

  lemma {:induction false} StepKeepsInv(start: Rows, s: State, l: Label)
    requires Inv(start, s) && Enabled(true, s, l)
    ensures Inv(start, Next(s, l))
  {
    var t := Next(s, l);
    assert l.Write? ==> t.committed[..|t.committed| - 1] == s.committed;
  }

  lemma {:induction false} RunKeepsInv(start: Rows, s: State, ls: seq<Label>)
    requires Inv(start, s) && Possible(true, s, ls)
    ensures Inv(start, After(true, s, ls))
    decreases |ls|
  {
    if |ls| > 0 {
      StepKeepsInv(start, s, ls[0]);
      RunKeepsInv(start, Next(s, ls[0]), ls[1..]);
    }
  }

  lemma {:induction false} Then(locked: bool, s0: State, ls: seq<Label>, s: State, l: Label) returns (more: seq<Label>, t: State)
    requires Possible(locked, s0, ls) && After(locked, s0, ls) == s && Enabled(locked, s, l)
    ensures more == ls + [l] && t == Next(s, l)
    ensures Possible(locked, s0, more) && After(locked, s0, more) == t
    decreases |ls|
  {
    more, t := ls + [l], Next(s, l);
    if |ls| == 0 {
      assert more == [l] && more[1..] == [];
    } else {
      var rest, _ := Then(locked, Next(s0, ls[0]), ls[1..], s, l);
      assert more[0] == ls[0] && more[1..] == rest;
    }
  }

  lemma {:induction false} LoadEmpty(s0: State, ls: seq<Label>, s: State, t: Thread, d: Delta) returns (more: seq<Label>, u: State)
    requires Possible(false, s0, ls) && After(false, s0, ls) == s && t !in s.threads && s.rows == map[]
    requires Store.ValidRecipient(d.name)
    ensures Possible(false, s0, more) && After(false, s0, more) == u
    ensures u == s.(holder := Some(t), threads := s.threads[t := Loaded(d, map[])])
  {
    more, u := Then(false, s0, ls, s, Arrive(t, d));
    more, u := Then(false, s0, more, u, Acquire(t));
    more, u := Then(false, s0, more, u, Load(t));
    assert u.threads == s.threads[t := Loaded(d, map[])];
  }

  /** Two unlocked threads load the same file; the second write erases the first registration. */
  lemma {:induction false} UnlockedErases() returns (s0: State, ls: seq<Label>)
    ensures Initial(s0) && Possible(false, s0, ls)
    ensures After(false, s0, ls).rows != MergedAll(s0.rows, After(false, s0, ls).committed)
  {
    var a, b := Delta("x", ["a"], [], None), Delta("y", ["b"], [], None);
    s0, ls := State(map[], None, map[], []), [];
    var s := s0;
    ValidNames();
    ls, s := LoadEmpty(s0, ls, s, 1, a);
    ls, s := LoadEmpty(s0, ls, s, 2, b);
    ls, s := Then(false, s0, ls, s, Write(1));
    ls, s := Then(false, s0, ls, s, Write(2));
    assert s.committed == [a, b] && "x" !in s.rows;
    BothMerged(s0.rows, a, b);
  }

  lemma {:induction false} ValidNames()
    ensures Store.ValidRecipient("x") && Store.ValidRecipient("y")
  {
  }

  lemma {:induction false} BothMerged(rows: Rows, a: Delta, b: Delta)
    ensures a.name in MergedAll(rows, [a, b])
  {
    assert [a, b][..1] == [a] && [a][..0] == [];
    assert a.name in MergedAll(rows, [a]);
  }

  /** Main result: every interleaving of merges ends in the deltas applied one after another if and
      only if the transaction takes the lock. */
  lemma {:induction false} SerialExactly(locked: bool)
    ensures AlwaysSerial(locked) <==> locked
  {
    if locked {
      forall s, ls | Initial(s) && Possible(true, s, ls)
        ensures After(true, s, ls).rows == MergedAll(s.rows, After(true, s, ls).committed)
      {
        RunKeepsInv(s.rows, s, ls);
      }
    } else {
      var s0, ls := UnlockedErases();
    }
  }

  predicate RemovedAfter(ds: seq<Delta>, i: int, name: string, m: string) {
    exists j | 0 <= j < |ds| && i < j :: ds[j].name == name && m in ds[j].remove
  }

  /** Delta i registers the member, and nothing after it takes the member out again. */
  predicate Registers(ds: seq<Delta>, i: nat, name: string, m: string)
    requires i < |ds|
  {
    ds[i].name == name && m in ds[i].add && m !in ds[i].remove && !RemovedAfter(ds, i, name, m)
  }

  lemma {:induction false} RemovedSnoc(front: seq<Delta>, d: Delta, i: int, name: string, m: string)
    requires i < |front|
    ensures RemovedAfter(front + [d], i, name, m) <==> RemovedAfter(front, i, name, m) || (d.name == name && m in d.remove)
  {
    var ds := front + [d];
    assert forall j | 0 <= j < |front| :: ds[j] == front[j];
    assert ds[|front|] == d;
  }

  lemma {:induction false} RegistersSnoc(front: seq<Delta>, d: Delta, name: string, m: string)
    ensures (exists i | 0 <= i < |front| + 1 :: Registers(front + [d], i, name, m)) <==>
              (d.name == name && m in d.add && m !in d.remove)
              || ((d.name == name ==> m !in d.remove) && exists i | 0 <= i < |front| :: Registers(front, i, name, m))
  {
    var ds := front + [d];
    assert Registers(ds, |front|, name, m) <==> d.name == name && m in d.add && m !in d.remove;
    forall i | 0 <= i < |front|
      ensures Registers(ds, i, name, m) <==> Registers(front, i, name, m) && (d.name == name ==> m !in d.remove)
    {
      RemovedSnoc(front, d, i, name, m);
    }
  }

  /** No registration is lost: who is a member after a series of deltas is decided by the last delta
      that names it, and by the starting row when none does. */
  lemma {:induction false} LastWordDecides(rows: Rows, ds: seq<Delta>, name: string, m: string)
    requires m != ""
    ensures m in RowOf(MergedAll(rows, ds), name).members <==>
              (exists i | 0 <= i < |ds| :: Registers(ds, i, name, m))
              || (m in RowOf(rows, name).members && !RemovedAfter(ds, -1, name, m))
    decreases |ds|
  {
    if ds != [] {
      var front, d := ds[..|ds| - 1], ds[|ds| - 1];
      assert ds == front + [d];
      LastWordDecides(rows, front, name, m);
      RemovedSnoc(front, d, -1, name, m);
      RegistersSnoc(front, d, name, m);
      if d.name == name {
        assert m in RowOf(MergedAll(rows, ds), name).members <==> Belongs(RowOf(MergedAll(rows, front), name), d, m);
      }
    }
  }
}
