/**
  One live event stream over an inbox file: replay what is newer than the cursor, then keep reading.
  The file grows while it is read, so a pass may see any prefix of it, cut anywhere inside a line;
  the connection may drop after any message, and the client then reconnects with the last time it saw.
 */
module EventStream {
  import opened Options
  import opened InboxStore

  /** Everything the stream owes its client. */
  function Owed(a: Aliases, lines: seq<Line>, recipient: string, start: Option<Ts>): seq<Msg> {
    Select(a, Goods(lines), recipient, start)
  }

  function CursorAfter(start: Option<Ts>, received: seq<Msg>): Option<Ts> {
    if received == [] then start else Some(received[|received| - 1].ts)
  }

  /** Reading after the n-th message's time skips exactly the first n messages. */
  lemma {:induction false} SelectAfter(a: Aliases, g: seq<Msg>, recipient: string, start: Option<Ts>, t: Ts, n: nat)
    requires Increasing(g) && (start.Some? ==> start.value <= t)
    requires var p := Select(a, g, recipient, start);
             n <= |p| && (n > 0 ==> p[n - 1].ts <= t) && (n < |p| ==> p[n].ts > t)
    ensures Select(a, g, recipient, Some(t)) == Select(a, g, recipient, start)[n..]
    decreases |g|, 1
  {
    if g != [] {
      var front, m := g[..|g| - 1], g[|g| - 1];
      var q := Select(a, front, recipient, start);
      assert Increasing(front);
      if !Wanted(a, m, recipient, start) {
        assert Select(a, g, recipient, start) == q;
        SelectAfter(a, front, recipient, start, t, n);
      } else {
        SelectIncreasing(a, g, recipient, start);
        SelectAfterWanted(a, front, m, recipient, start, t, n);
      }
    }
  }

  /** The same when the last message is wanted. */
  lemma {:induction false} SelectAfterWanted(a: Aliases, front: seq<Msg>, m: Msg, recipient: string, start: Option<Ts>, t: Ts, n: nat)
    requires Increasing(front) && (start.Some? ==> start.value <= t) && Wanted(a, m, recipient, start)
    requires var p := Select(a, front, recipient, start) + [m];
             && Increasing(p)
             && n <= |p| && (n > 0 ==> p[n - 1].ts <= t) && (n < |p| ==> p[n].ts > t)
    ensures Select(a, front + [m], recipient, Some(t)) == (Select(a, front, recipient, start) + [m])[n..]
    decreases |front| + 1, 0
  {
    var q := Select(a, front, recipient, start);
    var p := q + [m];
    SelectPush(a, front, m, recipient, Some(t));
    if n == |p| {
      if |q| > 0 {
        assert p[|q| - 1].ts < p[|q|].ts;
        assert q[|q| - 1].ts <= t;
      }
      SelectAfter(a, front, recipient, start, t, |q|);
    } else {
      if n < |q| {
        assert p[n].ts < p[|q|].ts;
      }
      if n > 0 {
        assert q[n - 1] == p[n - 1];
      }
      SelectAfter(a, front, recipient, start, t, n);
      assert p[n..] == q[n..] + [m];
    }
  }

  /** A longer file owes the same messages and then more. */
  lemma {:induction false} OwedGrows(a: Aliases, lines: seq<Line>, more: seq<Line>, recipient: string, start: Option<Ts>)
    ensures Owed(a, lines, recipient, start) <= Owed(a, lines + more, recipient, start)
    ensures Increasing(Goods(lines + more)) ==> Increasing(Goods(lines))
  {
    GoodsAppend(lines, more);
    SelectAppend(a, Goods(lines), Goods(more), recipient, start);
    var g := Goods(lines + more);
    assert forall i | 0 <= i < |Goods(lines)| :: Goods(lines)[i] == g[i];
  }

  lemma {:induction false} SelectNewer(a: Aliases, g: seq<Msg>, recipient: string, start: Option<Ts>)
    ensures start.Some? ==> forall m | m in Select(a, g, recipient, start) :: m.ts > start.value
  {
    SelectMember(a, g, recipient, start);
  }

  /** What one pass reads, given what the client already has: exactly the next messages of the part
      of the file that it sees. */
  lemma {:induction false} PassReads(a: Aliases, lines: seq<Line>, k: nat, recipient: string, start: Option<Ts>, received: seq<Msg>)
    requires k <= |lines| && Increasing(Goods(lines))
    requires received <= Owed(a, lines, recipient, start)
    ensures var p := Owed(a, lines[..k], recipient, start);
            && p <= Owed(a, lines, recipient, start)
            && Owed(a, lines[..k], recipient, CursorAfter(start, received))
               == if |received| <= |p| then p[|received|..] else []
  {
    assert lines[..k] + lines[k..] == lines;
    OwedGrows(a, lines[..k], lines[k..], recipient, start);
    var g, p, all := Goods(lines[..k]), Owed(a, lines[..k], recipient, start), Owed(a, lines, recipient, start);
    SelectIncreasing(a, Goods(lines), recipient, start);
    SelectNewer(a, Goods(lines), recipient, start);
    if received != [] {
      var t := received[|received| - 1].ts;
      assert received[|received| - 1] == all[|received| - 1] && all[|received| - 1] in all;
      var n := if |received| <= |p| then |received| else |p|;
      if 0 < n < |received| {
        assert all[n - 1].ts < all[|received| - 1].ts;
      }
      if n < |p| {
        assert all[|received| - 1].ts < all[n].ts;
      }
      SelectAfter(a, g, recipient, start, t, n);
    }
  }

  /** The lines a reader sees of a growing file: the first `k`, and perhaps the torn start of the next. */
  function Seen(lines: seq<Line>, k: nat, torn: bool): seq<Line>
    requires k <= |lines|
  {
    lines[..k] + if torn then [Torn] else []
  }

  lemma {:induction false} NextMessages(a: Aliases, lines: seq<Line>, k: nat, torn: bool, recipient: string, start: Option<Ts>, received: seq<Msg>)
    returns (p: seq<Msg>)
    requires k <= |lines| && Increasing(Goods(lines))
    requires received <= Owed(a, lines, recipient, start)
    ensures p <= Owed(a, lines, recipient, start)
    ensures k == |lines| ==> p == Owed(a, lines, recipient, start)
    ensures Select(a, Goods(Seen(lines, k, torn)), recipient, CursorAfter(start, received))
         == if |received| <= |p| then p[|received|..] else []
  {
    p := Owed(a, lines[..k], recipient, start);
    var rest: seq<Line> := if torn then [Torn] else [];
    GoodsAppend(lines[..k], rest);
    NoGoods(rest);
    assert Goods(Seen(lines, k, torn)) == Goods(lines[..k]);
    PassReads(a, lines, k, recipient, start, received);
    if k == |lines| {
      assert lines[..k] == lines;
    }
  }

  /** Handing over part of the next messages keeps the client on a prefix. */
  lemma {:induction false} Delivered(owed: seq<Msg>, p: seq<Msg>, had: seq<Msg>, batch: seq<Msg>, i: nat)
    requires had <= owed && p <= owed && i <= |batch|
    requires batch == if |had| <= |p| then p[|had|..] else []
    ensures had + batch[..i] <= owed
    ensures i == |batch| && p == owed ==> had + batch[..i] == owed
  {
    if |had| <= |p| {
      assert had == p[..|had|];
      assert had + batch == p;
      assert had + batch[..i] == p[..|had| + i];
    }
  }

  // ---------------------------------------------------------------- other publishers

  /** The file ends in a readable line without its newline. */
  predicate LastGood(f: File) {
    Open(f) && f.lines[|f.lines| - 1].Good?
  }

  lemma {:induction false} StampedPast(g: seq<Msg>, m: Msg, prev: Option<Ts>)
    requires g != [] ==> Bounds(prev, g)
    ensures forall x | x in g :: x.ts < Stamp(m, prev).ts
  {
  }

  /** A stamped write keeps the readable times increasing. */
  lemma {:induction false} WrittenIncreasing(f: File, m: Msg, cut: Cut)
    requires Increasing(Goods(f.lines)) && forall x | x in Goods(f.lines) :: x.ts < m.ts
    ensures Increasing(Goods(Written(f, m, cut).lines))
  {
    WrittenGoods(f, m, cut);
    IncreasingGrows(Goods(f.lines), GoodsAfter(f, m, cut), m);
  }

  /** Taking back the last readable message hurts exactly the client who has it. */
  lemma {:induction false} WithoutLastOwed(a: Aliases, g: seq<Msg>, recipient: string, start: Option<Ts>, received: seq<Msg>)
    requires g != [] && Increasing(g) && received <= Select(a, g, recipient, start)
    ensures received <= Select(a, g[..|g| - 1], recipient, start) <==> g[|g| - 1] !in received
  {
    var front, m := g[..|g| - 1], g[|g| - 1];
    var q, p := Select(a, front, recipient, start), Select(a, g, recipient, start);
    SelectMember(a, front, recipient, start);
    assert m !in front by {
      assert forall i | 0 <= i < |front| :: front[i].ts < m.ts;
    }
    assert m !in q;
    if Wanted(a, m, recipient, start) {
      assert p == q + [m];
      if |received| <= |q| {
        assert received == p[..|received|] == q[..|received|];
      } else {
        assert received == p && received[|q|] == m;
      }
    } else {
      assert p == q;
    }
  }

  lemma {:induction false} WrittenOwed(a: Aliases, f: File, m: Msg, cut: Cut, recipient: string, start: Option<Ts>, received: seq<Msg>)
    requires Increasing(Goods(f.lines)) && received <= Owed(a, f.lines, recipient, start)
    ensures received <= Owed(a, Written(f, m, cut).lines, recipient, start)
            <==> !(cut != Nothing && LastGood(f) && f.lines[|f.lines| - 1].msg in received)
  {
    WrittenGoods(f, m, cut);
    var g := Goods(f.lines);
    if cut != Nothing && LastGood(f) {
      WithoutLastOwed(a, g, recipient, start, received);
    } else {
      SelectPush(a, g, m, recipient, start);
    }
  }

  /** The newline of `m` was never written, and a client was handed `m`; the next publisher's line lands
      on it, and no reader sees either message again. */
  lemma {:induction false} HandedOverThenGone(a: Aliases, m: Msg, n: Msg)
    requires !m.splits
    ensures var f := Written(File([], false), m, AllButNewline);
            && Owed(a, f.lines, Dest(a, m.to), None) == [m]
            && Owed(a, Written(f, n, Whole).lines, Dest(a, m.to), None) == []
  {
    var f := Written(File([], false), m, AllButNewline);
    WrittenGoods(File([], false), m, AllButNewline);
    WrittenGoods(f, n, Whole);
    assert Goods(f.lines) == [m] && [m][..0] == [];
    SelectPush(a, [], m, Dest(a, m.to), None);
    assert [] + [m] == [m];
  }

  // ---------------------------------------------------------------- whole runs

  /** Who listens, and since when. */
  datatype Client = Client(aliases: Aliases, recipient: string, start: Option<Ts>)

  /** The shared file, and everything the client has been handed over all connections. */
  datatype View = View(file: File, received: seq<Msg>)

  /** Another publisher writes a message, or part of one, stamped past `prev`; or one pass of the stream
      sees the first `k` lines, perhaps with the torn start of the next, and drops after `cut` messages. */
  datatype Event = Published(m: Msg, prev: Option<Ts>, part: Cut) | Passed(k: nat, torn: bool, cut: nat)

  predicate CanHappen(v: View, e: Event) {
    match e
    case Published(_, prev, _) => Goods(v.file.lines) == [] || (prev.Some? && forall m | m in Goods(v.file.lines) :: m.ts <= prev.value)
    case Passed(k, _, _) => k <= |v.file.lines|
  }

  /** What a pass reads after the last message the client has. */
  function Batch(c: Client, v: View, k: nat, torn: bool): seq<Msg>
    requires k <= |v.file.lines|
  {
    Select(c.aliases, Goods(Seen(v.file.lines, k, torn)), c.recipient, CursorAfter(c.start, v.received))
  }

  function Happens(c: Client, v: View, e: Event): View
    requires CanHappen(v, e)
  {
    match e
    case Published(m, prev, part) => v.(file := Written(v.file, Stamp(m, prev), part))
    case Passed(k, torn, cut) =>
      var batch := Batch(c, v, k, torn);
      v.(received := v.received + if cut < |batch| then batch[..cut] else batch)
  }

  /** No gap and no duplicate: the client has a prefix of what it is owed. */
  predicate OnPrefix(c: Client, v: View) {
    v.received <= Owed(c.aliases, v.file.lines, c.recipient, c.start)
  }

  /** The write lands on an unterminated line whose message the client has been handed. */
  predicate SpoilsHanded(v: View, e: Event) {
    e.Published? && e.part != Nothing && LastGood(v.file) && v.file.lines[|v.file.lines| - 1].msg in v.received
  }

  lemma {:induction false} EventKeepsOrder(c: Client, v: View, e: Event)
    requires Increasing(Goods(v.file.lines)) && CanHappen(v, e)
    ensures Increasing(Goods(Happens(c, v, e).file.lines))
  {
    if e.Published? {
      StampedPast(Goods(v.file.lines), e.m, e.prev);
      WrittenIncreasing(v.file, Stamp(e.m, e.prev), e.part);
    }
  }

  /** One event takes the client off its prefix if and only if it spoils a message it has been handed. */
  lemma {:induction false} EventKeepsPrefix(c: Client, v: View, e: Event)
    requires Increasing(Goods(v.file.lines)) && CanHappen(v, e) && OnPrefix(c, v)
    ensures OnPrefix(c, Happens(c, v, e)) <==> !SpoilsHanded(v, e)
  {
    match e
    case Published(m, prev, part) =>
      WrittenOwed(c.aliases, v.file, Stamp(m, prev), part, c.recipient, c.start, v.received);
    case Passed(k, torn, cut) =>
      PassKeepsPrefix(c, v, k, torn, cut);
  }

  /** A pass that sees the whole file and is not cut off hands over all that is owed. */
  lemma {:induction false} PassKeepsPrefix(c: Client, v: View, k: nat, torn: bool, cut: nat)
    requires Increasing(Goods(v.file.lines)) && k <= |v.file.lines| && OnPrefix(c, v)
    ensures OnPrefix(c, Happens(c, v, Passed(k, torn, cut)))
    ensures k == |v.file.lines| && |Batch(c, v, k, torn)| <= cut ==>
              Happens(c, v, Passed(k, torn, cut)).received == Owed(c.aliases, v.file.lines, c.recipient, c.start)
  {
    var p := NextMessages(c.aliases, v.file.lines, k, torn, c.recipient, c.start, v.received);
    var batch := Batch(c, v, k, torn);
    var i := if cut < |batch| then cut else |batch|;
    assert batch[..|batch|] == batch;
    Delivered(Owed(c.aliases, v.file.lines, c.recipient, c.start), p, v.received, batch, i);
  }

  /** The events can happen one after another. */
  predicate Possible(c: Client, v: View, es: seq<Event>)
    decreases |es|
  {
    es != [] ==> CanHappen(v, es[0]) && Possible(c, Happens(c, v, es[0]), es[1..])
  }

  /** On a prefix now and after every event. */
  predicate StaysOnPrefix(c: Client, v: View, es: seq<Event>)
    requires Possible(c, v, es)
    decreases |es|
  {
    OnPrefix(c, v) && (es != [] ==> StaysOnPrefix(c, Happens(c, v, es[0]), es[1..]))
  }

  /** Some event, when it happens, spoils a message the client has been handed by then. */
  predicate SomeSpoils(c: Client, v: View, es: seq<Event>)
    requires Possible(c, v, es)
    decreases |es|
  {
    es != [] && (SpoilsHanded(v, es[0]) || SomeSpoils(c, Happens(c, v, es[0]), es[1..]))
  }

  /** Main result, over every run of publishes, whole or cut short, passes, drops and reconnects: the client
      is always on a prefix of what it is owed if and only if no write lands on an unterminated line whose
      message it has been handed. */
  lemma {:induction false} StaysOnPrefixExactly(c: Client, v: View, es: seq<Event>)
    requires Increasing(Goods(v.file.lines)) && OnPrefix(c, v) && Possible(c, v, es)
    ensures StaysOnPrefix(c, v, es) <==> !SomeSpoils(c, v, es)
    decreases |es|
  {
    if es != [] {
      var next := Happens(c, v, es[0]);
      EventKeepsOrder(c, v, es[0]);
      EventKeepsPrefix(c, v, es[0]);
      if OnPrefix(c, next) {
        StaysOnPrefixExactly(c, next, es[1..]);
      }
    }
  }

  // ---------------------------------------------------------------- the stream

  class Stream {
    const client: Client
    var file: File                    // the shared file
    var cursor: Option<Ts>
    var received: seq<Msg>            // everything the client has been handed, over all connections

    constructor (client: Client, file: File)
      requires Increasing(Goods(file.lines))
      ensures Valid() && received == [] && this.file == file && this.client == client
    {
      this.client, this.file, this.cursor, this.received := client, file, client.start, [];
    }

    function Now(): View
      reads this
    {
      View(file, received)
    }

    /** The file's times increase, and the cursor names the last message handed over. */
    ghost predicate Sound()
      reads this
    {
      Increasing(Goods(file.lines)) && cursor == CursorAfter(client.start, received)
    }

    ghost predicate Valid()
      reads this
    {
      Sound() && OnPrefix(client, Now())
    }

    /** Another publisher writes a message, or part of one, stamped past `prev`: its cached time, or
        the file's last readable one.  The client stays on a prefix of what it is owed if and only if
        the write does not land on an unterminated line whose message it has been handed. */
    method Publish(m: Msg, prev: Option<Ts>, part: Cut)
      requires Sound() && CanHappen(Now(), Published(m, prev, part))
      modifies this`file
      ensures Sound() && Now() == Happens(client, old(Now()), Published(m, prev, part))
      ensures old(Valid()) ==> (Valid() <==> !SpoilsHanded(old(Now()), Published(m, prev, part)))
    {
      ghost var was := Now();
      EventKeepsOrder(client, was, Published(m, prev, part));
      if OnPrefix(client, was) {
        EventKeepsPrefix(client, was, Published(m, prev, part));
      }
      file := Written(file, Stamp(m, prev), part);
    }

    /** Yields messages until the batch ends or the connection drops after `cut` of them. */
    method HandOver(batch: seq<Msg>, cut: nat) returns (i: nat)
      requires cursor == CursorAfter(client.start, received)
      modifies this`cursor, this`received
      ensures i == if cut < |batch| then cut else |batch|
      ensures received == old(received) + batch[..i] && cursor == CursorAfter(client.start, received)
    {
      i := 0;
      while i < |batch| && i < cut
        invariant 0 <= i <= |batch| && i <= cut
        invariant received == old(received) + batch[..i]
        invariant cursor == CursorAfter(client.start, received)
      {
        assert batch[..i] + [batch[i]] == batch[..i + 1];
        received := received + [batch[i]];      // yield
        cursor := Some(batch[i].ts);
        i := i + 1;
      }
    }

    /** One pass of the loop.  It sees the first `k` lines and perhaps the torn start of the next; the
        connection drops after `cut` messages, and the client comes back with its last time. */
    method Pass(k: nat, torn: bool, cut: nat)
      requires Sound() && k <= |file.lines|
      modifies this`cursor, this`received
      ensures Sound() && Now() == Happens(client, old(Now()), Passed(k, torn, cut))
      ensures old(Valid()) ==> Valid()
      ensures old(Valid()) && k == |file.lines| && |received| - |old(received)| < cut ==>
                received == Owed(client.aliases, file.lines, client.recipient, client.start)
    {
      ghost var was := Now();
      var batch := Select(client.aliases, Goods(Seen(file.lines, k, torn)), client.recipient, cursor);
      assert batch == Batch(client, was, k, torn);
      var i := HandOver(batch, cut);
      assert batch[..|batch|] == batch;
      if OnPrefix(client, was) {
        PassKeepsPrefix(client, was, k, torn, cut);
      }
    }
  }
}
