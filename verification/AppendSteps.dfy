/**
  Concurrent appends, step by step.  Any number of worker threads run the append transaction: take
  the lock, read the tail, stamp and cache, write, release.  A write may be cut short by an error,
  and the broker may die and restart between any two steps, which empties the cache.
  `IncreasingExactly` proves that the lock is exactly what keeps every inbox readable by cursor.
 */
module AppendSteps {
  import opened Options
  import opened InboxStore

  type Thread = nat

  datatype Pc =
    | Arrived(m: Msg, f: string)
    | Inside(m: Msg, f: string)                       // the lock is held
    | Tailed(m: Msg, f: string, prev: Option<Ts>)
    | Stamped(m: Msg, f: string)                      // stamped and cached, not written
    | Leaving

  datatype State = State(
    files: map<string, File>,
    lastTs: map<string, Ts>,
    holder: Option<Thread>,
    threads: map<Thread, Pc>)

  datatype Label =
    | Arrive(t: Thread, m: Msg, f: string)
    | Acquire(t: Thread)
    | ReadTail(t: Thread)
    | StampAndCache(t: Thread)
    | Write(t: Thread, cut: Cut)
    | Release(t: Thread)
    | Die

  predicate Readable(files: map<string, File>) {
    forall f | f in files :: Increasing(Goods(files[f].lines))
  }

  /** Any files that a cursor can read, holding any torn lines, and a freshly started broker. */
  predicate Initial(s: State) {
    Readable(s.files) && s.lastTs == map[] && s.holder == None && s.threads == map[]
  }

  /** `locked` says whether entering waits for the lock to be free. */
  predicate Enabled(locked: bool, s: State, l: Label) {
    match l
    case Arrive(t, _, _) => t !in s.threads
    case Acquire(t) => t in s.threads && s.threads[t].Arrived? && (locked ==> s.holder == None)
    case ReadTail(t) => t in s.threads && s.threads[t].Inside?
    case StampAndCache(t) => t in s.threads && s.threads[t].Tailed?
    case Write(t, _) => t in s.threads && s.threads[t].Stamped?
    case Release(t) => t in s.threads && s.threads[t].Leaving?
    case Die => true
  }

  function Next(s: State, l: Label): State
    requires Enabled(false, s, l)
  {
    match l
    case Arrive(t, m, f) => s.(threads := s.threads[t := Arrived(m, f)])
    case Acquire(t) =>
      s.(holder := Some(t), threads := s.threads[t := Inside(s.threads[t].m, s.threads[t].f)])
    case ReadTail(t) =>
      var f := s.threads[t].f;
      var prev := if f in s.lastTs then Some(s.lastTs[f]) else TailTs(FileAt(s.files, f).lines);
      s.(lastTs := if prev.Some? then s.lastTs[f := prev.value] else s.lastTs,
         threads := s.threads[t := Tailed(s.threads[t].m, f, prev)])
    case StampAndCache(t) =>
      var m, f := Stamp(s.threads[t].m, s.threads[t].prev), s.threads[t].f;
      s.(lastTs := s.lastTs[f := m.ts], threads := s.threads[t := Stamped(m, f)])
    case Write(t, cut) =>
      var f := s.threads[t].f;
      s.(files := s.files[f := Written(FileAt(s.files, f), s.threads[t].m, cut)],
         threads := s.threads[t := Leaving])
    case Release(t) => s.(holder := None, threads := s.threads - {t})
    case Die => s.(lastTs := map[], holder := None, threads := map[])
  }

  predicate Possible(locked: bool, s: State, ls: seq<Label>)
    decreases |ls|
  {
    |ls| > 0 ==> Enabled(locked, s, ls[0]) && Possible(locked, Next(s, ls[0]), ls[1..])
  }

  function After(locked: bool, s: State, ls: seq<Label>): State
    requires Possible(locked, s, ls)
    decreases |ls|
  {
    if |ls| == 0 then s else After(locked, Next(s, ls[0]), ls[1..])
  }

  ghost predicate AlwaysReadable(locked: bool) {
    forall s, ls | Initial(s) && Possible(locked, s, ls) :: Readable(After(locked, s, ls).files)
  }

  // ---------------------------------------------------------------- the invariant

  ghost predicate ThreadOk(s: State, t: Thread, pc: Pc) {
    && (!pc.Arrived? ==> s.holder == Some(t))
    && (pc.Tailed? ==> var g := Goods(FileAt(s.files, pc.f).lines); g != [] ==> Bounds(pc.prev, g))
    && (pc.Stamped? ==>
          && pc.f in s.lastTs && pc.m.ts <= s.lastTs[pc.f]
          && forall x | x in Goods(FileAt(s.files, pc.f).lines) :: x.ts < pc.m.ts)
  }

  ghost predicate Inv(s: State) {
    && Readable(s.files)
    && (forall f | f in s.lastTs :: Bounds(Some(s.lastTs[f]), Goods(FileAt(s.files, f).lines)))
    && (forall t | t in s.threads :: ThreadOk(s, t, s.threads[t]))
  }

  lemma {:induction false} WriteKeepsFile(f: File, m: Msg, cut: Cut)
    requires Increasing(Goods(f.lines)) && forall x | x in Goods(f.lines) :: x.ts < m.ts
    ensures Increasing(Goods(Written(f, m, cut).lines))
    ensures forall x | x in Goods(Written(f, m, cut).lines) :: x in Goods(f.lines) || x == m
  {
    WrittenGoods(f, m, cut);
    IncreasingGrows(Goods(f.lines), Goods(Written(f, m, cut).lines), m);
  }

  lemma {:induction false} WriteKeepsInv(s: State, t: Thread, cut: Cut)
    requires Inv(s) && Enabled(true, s, Write(t, cut))
    ensures Inv(Next(s, Write(t, cut)))
  {
    var f, m := s.threads[t].f, s.threads[t].m;
    assert ThreadOk(s, t, s.threads[t]);
    assert Increasing(Goods(FileAt(s.files, f).lines));
    WriteKeepsFile(FileAt(s.files, f), m, cut);
    var u := Next(s, Write(t, cut));
    assert FileAt(u.files, f) == Written(FileAt(s.files, f), m, cut);
    forall g | g in u.lastTs ensures Bounds(Some(u.lastTs[g]), Goods(FileAt(u.files, g).lines)) {
      assert g != f ==> FileAt(u.files, g) == FileAt(s.files, g);
    }
    forall o | o in u.threads ensures ThreadOk(u, o, u.threads[o]) {
      if o != t {
        assert ThreadOk(s, o, s.threads[o]);
        assert u.threads[o].Arrived?;
      }
    }
  }

  lemma {:induction false} CacheStepKeepsInv(s: State, l: Label)
    requires Inv(s) && Enabled(true, s, l) && (l.ReadTail? || l.StampAndCache?)
    ensures Inv(Next(s, l))
  {
    var g := Goods(FileAt(s.files, s.threads[l.t].f).lines);
    assert ThreadOk(s, l.t, s.threads[l.t]);
    if l.ReadTail? {
      TailBoundsAll(g);
    }
    var u := Next(s, l);
    assert u.files == s.files;
    forall o | o in u.threads ensures ThreadOk(u, o, u.threads[o]) {
      assert ThreadOk(s, o, s.threads[o]);
    }
  }

  lemma {:induction false} StepKeepsInv(s: State, l: Label)
    requires Inv(s) && Enabled(true, s, l)
    ensures Inv(Next(s, l))
  {
    if l.Write? {
      WriteKeepsInv(s, l.t, l.cut);
    } else if l.ReadTail? || l.StampAndCache? {
      CacheStepKeepsInv(s, l);
    } else if l != Die {
      var u := Next(s, l);
      assert u.files == s.files && u.lastTs == s.lastTs;
      forall o | o in u.threads ensures ThreadOk(u, o, u.threads[o]) {
        assert o in s.threads ==> ThreadOk(s, o, s.threads[o]);
      }
    }
  }

  lemma {:induction false} RunKeepsInv(s: State, ls: seq<Label>)
    requires Inv(s) && Possible(true, s, ls)
    ensures Inv(After(true, s, ls))
    decreases |ls|
  {
    if |ls| > 0 {
      StepKeepsInv(s, ls[0]);
      RunKeepsInv(Next(s, ls[0]), ls[1..]);
    }
  }

  // ---------------------------------------------------------------- without the lock

  lemma {:induction false} Then(locked: bool, s0: State, ls: seq<Label>, s: State, l: Label) returns (more: seq<Label>, t: State)
    requires Possible(locked, s0, ls) && After(locked, s0, ls) == s && Enabled(locked, s, l)
    ensures more == ls + [l] && t == Next(s, l)
    ensures Possible(locked, s0, more) && After(locked, s0, more) == t
    decreases |ls|
  {
    more, t := ls + [l], Next(s, l);
    if |ls| == 0 {
      assert more == [l] && more[1..] == [];
    } else {
      var rest, _ := Then(locked, Next(s0, ls[0]), ls[1..], s, l);
      assert more[0] == ls[0] && more[1..] == rest;
    }
  }

  /** One thread of an unlocked store gets as far as its stamp on an empty file. */
  lemma {:induction false} StampFive(s0: State, ls: seq<Label>, s: State, t: Thread) returns (more: seq<Label>, u: State)
    requires Possible(false, s0, ls) && After(false, s0, ls) == s
    requires t in s.threads && s.threads[t] == Tailed(Msg("a", 5, t, false), "a", None)
    ensures Possible(false, s0, more) && After(false, s0, more) == u
    ensures u == s.(lastTs := s.lastTs["a" := 5], threads := s.threads[t := Stamped(Msg("a", 5, t, false), "a")])
  {
    more, u := Then(false, s0, ls, s, StampAndCache(t));
  }

  lemma {:induction false} ReadEmptyTail(s0: State, ls: seq<Label>, s: State, t: Thread) returns (more: seq<Label>, u: State)
    requires Possible(false, s0, ls) && After(false, s0, ls) == s
    requires t !in s.threads && s.files == map[] && s.lastTs == map[]
    ensures Possible(false, s0, more) && After(false, s0, more) == u
    ensures u == s.(holder := Some(t), threads := s.threads[t := Tailed(Msg("a", 5, t, false), "a", None)])
  {
    more, u := Then(false, s0, ls, s, Arrive(t, Msg("a", 5, t, false), "a"));
    more, u := Then(false, s0, more, u, Acquire(t));
    more, u := Then(false, s0, more, u, ReadTail(t));
    assert u.threads == s.threads[t := Tailed(Msg("a", 5, t, false), "a", None)];
  }

  lemma {:induction false} BothLinesTie(one: Msg, two: Msg)
    requires one.ts == two.ts && !one.splits && !two.splits
    ensures !Increasing(Goods(Written(Written(File([], false), one, Whole), two, Whole).lines))
  {
    var lines := Written(Written(File([], false), one, Whole), two, Whole).lines;
    assert lines == [Good(one)] + [Good(two)];
    GoodsAppend([Good(one)], [Good(two)]);
    assert [Good(one)][..0] == [] && [Good(two)][..0] == [];
    assert Goods(lines) == [one, two];
    assert Goods(lines)[0].ts == Goods(lines)[1].ts;
  }

  /** Two unlocked threads read the same tail and stamp the same time. */
  lemma {:induction false} UnlockedTies() returns (s0: State, ls: seq<Label>)
    ensures Initial(s0) && Possible(false, s0, ls) && !Readable(After(false, s0, ls).files)
  {
    s0, ls := State(map[], map[], None, map[]), [];
    var s := s0;
    ls, s := ReadEmptyTail(s0, ls, s, 1);
    ls, s := ReadEmptyTail(s0, ls, s, 2);
    ls, s := StampFive(s0, ls, s, 1);
    ls, s := StampFive(s0, ls, s, 2);
    ls, s := WriteBoth(s0, ls, s);
  }

  lemma {:induction false} WriteBoth(s0: State, ls: seq<Label>, s: State) returns (more: seq<Label>, u: State)
    requires Possible(false, s0, ls) && After(false, s0, ls) == s && s.files == map[]
    requires 1 in s.threads && s.threads[1] == Stamped(Msg("a", 5, 1, false), "a")
    requires 2 in s.threads && s.threads[2] == Stamped(Msg("a", 5, 2, false), "a")
    ensures Possible(false, s0, more) && After(false, s0, more) == u && !Readable(u.files)
  {
    more, u := Then(false, s0, ls, s, Write(1, Whole));
    more, u := Then(false, s0, more, u, Write(2, Whole));
    BothLinesTie(Msg("a", 5, 1, false), Msg("a", 5, 2, false));
    assert "a" in u.files;
  }

  /** Main result: the times in every file strictly increase in every run of concurrent appends,
      cut-short writes and restarts, if and only if the transaction takes the lock. */
  lemma {:induction false} IncreasingExactly(locked: bool)
    ensures AlwaysReadable(locked) <==> locked
  {
    if locked {
      forall s, ls | Initial(s) && Possible(true, s, ls) ensures Readable(After(true, s, ls).files) {
        RunKeepsInv(s, ls);
      }
    } else {
      var s0, ls := UnlockedTies();
      assert !Readable(After(false, s0, ls).files);
    }
  }
}
