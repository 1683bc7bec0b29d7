/**
  A shadow that dies between taking a number and writing its ledger, and the successor that continues
  from what the ledger says.
 */
module ShadowDeath {
  import opened Shadow

  /** What happens to a handle, finer than a shadow's whole steps: an operation on its traffic, or the
      ledger write that follows it.  A shadow that is replaced may have died before that write. */
  datatype Act = Did(op: Op) | WroteLedger

  datatype World = World(traffic: Traffic, ledger: nat)

  /** A successor numbers on from the ledger, not from its predecessor's memory. */
  function Move(w: World, act: Act): World {
    match act
    case WroteLedger => w.(ledger := w.traffic.seqNo)
    case Did(op) =>
      var t := Step(w.traffic, op);
      w.(traffic := if op == Attached then t.(seqNo := w.ledger) else t)
  }

  function Walk(acts: seq<Act>): World {
    if acts == [] then World(NO_TRAFFIC, 0) else Move(Walk(acts[..|acts| - 1]), acts[|acts| - 1])
  }

  lemma {:induction false} WalkSnoc(acts: seq<Act>, act: Act)
    ensures Walk(acts + [act]) == Move(Walk(acts), act)
  {
    assert (acts + [act])[..|acts|] == acts;
  }

  /** The operations alone, as if every ledger write had been made in time. */
  function Ops(acts: seq<Act>): seq<Op> {
    if acts == [] then []
    else Ops(acts[..|acts| - 1]) + (if acts[|acts| - 1].Did? then [acts[|acts| - 1].op] else [])
  }

  predicate Numbers(act: Act) {
    act.Did? && (act.op.Framed? || act.op.Counted?)
  }

  /** At step `i` a successor attaches to a ledger that is behind. */
  predicate Stale(acts: seq<Act>, i: nat) {
    i < |acts| && acts[i] == Did(Attached) && Walk(acts[..i]).ledger != Walk(acts[..i]).traffic.seqNo
  }

  ghost predicate SomeStale(acts: seq<Act>) {
    exists i: nat :: Stale(acts, i)
  }

  /** The successor attached at `i` goes on to number an event at `j`. */
  predicate Reuses(acts: seq<Act>, i: nat, j: nat) {
    i < j < |acts| && Stale(acts, i) && Numbers(acts[j])
  }

  ghost predicate SomeReuses(acts: seq<Act>) {
    exists i: nat, j: nat :: Reuses(acts, i, j)
  }

  predicate Distinct(ns: seq<nat>) {
    forall i, j | 0 <= i < j < |ns| :: ns[i] != ns[j]
  }

  /** Main result: the numbers given to events are distinct if and only if no successor that attached
      to a ledger which was behind numbered an event. */
  lemma {:induction false} NumbersDistinctExactly(acts: seq<Act>)
    ensures Distinct(Walk(acts).traffic.numbers) <==> !SomeReuses(acts)
  {
    Cases(acts);
  }

  /** With every ledger write made in time, deaths leave no trace: the traffic is that of whole steps. */
  lemma {:induction false} TimelyLedgerHidesDeaths(acts: seq<Act>)
    requires !SomeStale(acts)
    ensures Walk(acts).traffic == Run(Ops(acts)) && DistinctNumbers(Walk(acts).traffic.typed)
  {
    Cases(acts);
    HistoryConserves(Ops(acts));
  }

  /** No number has been given twice, and the ledger is not ahead. */
  ghost predicate Sound(w: World) {
    w.ledger <= w.traffic.seqNo && Distinct(w.traffic.numbers)
  }

  /** No number has been given twice, but the next one will be. */
  ghost predicate Rewound(w: World) {
    w.ledger == w.traffic.seqNo && w.traffic.seqNo + 1 in w.traffic.numbers && Distinct(w.traffic.numbers)
  }

  /** Before a stale successor, after it, and after its first number. */
  lemma {:induction false} Cases(acts: seq<Act>)
    ensures SomeReuses(acts) ==> SomeStale(acts)
    ensures !SomeStale(acts) ==>
              Sound(Walk(acts)) && Walk(acts).traffic == Run(Ops(acts))
    ensures SomeStale(acts) && !SomeReuses(acts) ==> Rewound(Walk(acts))
    ensures SomeReuses(acts) ==> !Distinct(Walk(acts).traffic.numbers)
  {
    if acts != [] {
      var front, act := acts[..|acts| - 1], acts[|acts| - 1];
      Cases(front);
      LastStale(acts);
      LastReuses(acts);
      WalkSnoc(front, act);
      assert acts == front + [act];
      NextCase(front, act);
    }
  }

  /** One more step from each of the cases. */
  lemma {:induction false} NextCase(front: seq<Act>, act: Act)
    ensures var w, next := Walk(front), Move(Walk(front), act);
            && (!Distinct(w.traffic.numbers) ==> !Distinct(next.traffic.numbers))
            && (Rewound(w) ==> if Numbers(act) then !Distinct(next.traffic.numbers) else Rewound(next))
            && (Sound(w) && w.traffic == Run(Ops(front)) ==>
                  if act == Did(Attached) && w.ledger != w.traffic.seqNo then Rewound(next)
                  else Sound(next) && next.traffic == Run(Ops(front + [act])))
  {
    var w := Walk(front);
    if !Distinct(w.traffic.numbers) {
      NumbersStay(w, act);
    }
    if Rewound(w) {
      AfterStale(w, act);
    }
    if Sound(w) && w.traffic == Run(Ops(front)) {
      RunOps(front, act);
      BeforeStale(w, Ops(front), act);
    }
  }

  lemma {:induction false} RunOps(front: seq<Act>, act: Act)
    ensures Run(Ops(front + [act])) == if act.Did? then Step(Run(Ops(front)), act.op) else Run(Ops(front))
  {
    assert (front + [act])[..|front|] == front;
    if act.Did? {
      RunSnoc(Ops(front), act.op);
    } else {
      assert Ops(front) + [] == Ops(front);
    }
  }

  lemma {:induction false} LastStale(acts: seq<Act>)
    requires acts != []
    ensures SomeStale(acts) <==> SomeStale(acts[..|acts| - 1]) || Stale(acts, |acts| - 1)
  {
    var front := acts[..|acts| - 1];
    forall i: nat ensures i < |front| ==> (Stale(front, i) <==> Stale(acts, i)) {
      assert i < |front| ==> front[..i] == acts[..i];
    }
    if SomeStale(front) {
      var i: nat :| Stale(front, i);
      assert Stale(acts, i);
    }
    if SomeStale(acts) {
      var i: nat :| Stale(acts, i);
      assert i == |front| || Stale(front, i);
    }
  }

  lemma {:induction false} LastReuses(acts: seq<Act>)
    requires acts != []
    ensures SomeReuses(acts) <==> SomeReuses(acts[..|acts| - 1]) || (SomeStale(acts[..|acts| - 1]) && Numbers(acts[|acts| - 1]))
    ensures SomeReuses(acts) ==> SomeStale(acts)
  {
    var front := acts[..|acts| - 1];
    forall i: nat ensures i < |front| ==> (Stale(front, i) <==> Stale(acts, i)) {
      assert i < |front| ==> front[..i] == acts[..i];
    }
    if SomeReuses(front) {
      var i: nat, j: nat :| Reuses(front, i, j);
      assert Reuses(acts, i, j);
    }
    if SomeStale(front) && Numbers(acts[|acts| - 1]) {
      var i: nat :| Stale(front, i);
      assert Reuses(acts, i, |front|);
    }
    if SomeReuses(acts) {
      var i: nat, j: nat :| Reuses(acts, i, j);
      assert Stale(acts, i) && Stale(front, i);
      assert j < |front| ==> Reuses(front, i, j);
    }
  }

  /** Numbers once given stay given. */
  lemma {:induction false} NumbersStay(w: World, act: Act)
    requires !Distinct(w.traffic.numbers)
    ensures !Distinct(Move(w, act).traffic.numbers)
  {
    var was, now := w.traffic.numbers, Move(w, act).traffic.numbers;
    var i, j :| 0 <= i < j < |was| && was[i] == was[j];
    assert now[i] == was[i] && now[j] == was[j];
  }

  /** The next number has been given before. */
  lemma {:induction false} AfterStale(w: World, act: Act)
    requires Rewound(w)
    ensures if Numbers(act) then !Distinct(Move(w, act).traffic.numbers) else Rewound(Move(w, act))
  {
    if Numbers(act) {
      var was, now := w.traffic.numbers, Move(w, act).traffic.numbers;
      var i :| 0 <= i < |was| && was[i] == w.traffic.seqNo + 1;
      assert now[i] == now[|was|];
    }
  }

  /** Numbers are 1, 2, and so on, and the ledger knows how many up to its last write. */
  lemma {:induction false} BeforeStale(w: World, ops: seq<Op>, act: Act)
    requires w.traffic == Run(ops) && w.ledger <= w.traffic.seqNo
    ensures var next := Move(w, act);
            if act == Did(Attached) && w.ledger != w.traffic.seqNo
            then Rewound(next)
            else Sound(next) && next.traffic == if act.Did? then Step(w.traffic, act.op) else w.traffic
  {
    var next := Move(w, act);
    HistoryConserves(ops);
    assert act.Did? ==> Counts(Step(w.traffic, act.op)) by {
      if act.Did? {
        StepCounts(w.traffic, act.op);
      }
    }
    if act == Did(Attached) && w.ledger != w.traffic.seqNo {
      assert next.traffic.numbers[w.ledger] == w.ledger + 1;
    }
  }

  /** An event is typed, the shadow dies before its ledger write, and the successor types another event:
      both frames carry number 1. */
  lemma {:induction false} MidStepDeathReusesNumber(kind: string, a: string, b: string)
    ensures Walk([Did(Framed(kind, a, true)), Did(Attached), Did(Framed(kind, b, true))]).traffic.typed ==
            [Frame(1, kind, a), Frame(1, kind, b)]
  {
    var one, two := [Did(Framed(kind, a, true))], [Did(Framed(kind, a, true)), Did(Attached)];
    assert one == [] + [Did(Framed(kind, a, true))] && two == one + [Did(Attached)];
    WalkSnoc([], Did(Framed(kind, a, true)));
    WalkSnoc(one, Did(Attached));
    WalkSnoc(two, Did(Framed(kind, b, true)));
    assert two + [Did(Framed(kind, b, true))] == [Did(Framed(kind, a, true)), Did(Attached), Did(Framed(kind, b, true))];
  }
}
