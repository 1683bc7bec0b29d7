/**
  The order in which frames reach a shadow's console.  A shadow types a new event at once even when
  older frames wait in its queue, and redelivers those later, so "in order" needs a condition.
 */
module ShadowOrder {
  import opened Shadow

  // ---------------------------------------------------------------- out of order

  /** The second event is typed at once; the first, which waited, is typed after it. */
  lemma {:induction false} NewerFrameFirst(kind: string, a: string, b: string)
    ensures var t := Run([Framed(kind, a, false), Framed(kind, b, true), Redelivered]);
            t.typed == [Frame(2, kind, b), Frame(1, kind, a)] && !Ascending(t.typed)
  {
    var one, two := [Framed(kind, a, false)], [Framed(kind, a, false), Framed(kind, b, true)];
    assert one == [] + [Framed(kind, a, false)] && two == one + [Framed(kind, b, true)];
    RunSnoc([], Framed(kind, a, false));
    RunSnoc(one, Framed(kind, b, true));
    RunSnoc(two, Redelivered);
    assert two + [Redelivered] == [Framed(kind, a, false), Framed(kind, b, true), Redelivered];
    var t := Run(two + [Redelivered]);
    assert t.typed == [Frame(2, kind, b), Frame(1, kind, a)];
    assert t.typed[0].number == 2 && t.typed[1].number == 1;
  }

  // ---------------------------------------------------------------- exactly when

  /** Step `j` types the head of the queue. */
  predicate Redelivers(ops: seq<Op>, j: nat) {
    j < |ops| && ops[j] == Redelivered && Run(ops[..j]).pending != []
  }

  predicate SendsAtOnce(op: Op) {
    op.Framed? && op.sent
  }

  /** Step `j` types a frame older than the one typed last. */
  predicate Regresses(ops: seq<Op>, j: nat) {
    && Redelivers(ops, j)
    && var t := Run(ops[..j]); t.typed != [] && t.pending[0].number < t.typed[|t.typed| - 1].number
  }

  /** Step `i` types an event at once while the frame that step `j` redelivers waits in the queue. */
  predicate Overtakes(ops: seq<Op>, i: nat, j: nat) {
    && i < j && Redelivers(ops, j) && SendsAtOnce(ops[i])
    && Run(ops[..j]).pending[0] in Run(ops[..i]).pending
  }

  ghost predicate SomeRegresses(ops: seq<Op>) {
    exists j: nat :: Regresses(ops, j)
  }

  ghost predicate SomeOvertakes(ops: seq<Op>) {
    exists i: nat, j: nat :: Overtakes(ops, i, j)
  }

  /** Main result: over every history, the console shows frames in the order of their numbers if and
      only if no event was typed at once past a waiting frame that was redelivered later; and that is
      exactly when no redelivery goes back behind the frame typed last. */
  lemma {:induction false} InOrderExactly(ops: seq<Op>)
    ensures Ascending(Run(ops).typed) <==> !SomeOvertakes(ops)
    ensures Ascending(Run(ops).typed) <==> !SomeRegresses(ops)
  {
    if ops != [] {
      InOrderExactly(ops[..|ops| - 1]);
      LastRegresses(ops);
      LastOvertakes(ops);
      if Ascending(Run(ops[..|ops| - 1]).typed) {
        LastStepOrders(ops);
      } else {
        StaysDisordered(ops);
      }
    }
  }

  lemma {:induction false} LastRegresses(ops: seq<Op>)
    requires ops != []
    ensures SomeRegresses(ops) <==> SomeRegresses(ops[..|ops| - 1]) || Regresses(ops, |ops| - 1)
  {
    var front := ops[..|ops| - 1];
    forall j: nat ensures j < |front| ==> (Regresses(front, j) <==> Regresses(ops, j)) {
      FrontRuns(ops, j);
    }
    if SomeRegresses(front) {
      var j: nat :| Regresses(front, j);
      assert Regresses(ops, j);
    }
    if SomeRegresses(ops) {
      var j: nat :| Regresses(ops, j);
      assert j == |front| || Regresses(front, j);
    }
  }

  /** Overtaking before the last step is overtaking; overtaking that the last step completes is a
      redelivery behind the console, when the console was in order. */
  lemma {:induction false} LastOvertakes(ops: seq<Op>)
    requires ops != []
    ensures SomeOvertakes(ops[..|ops| - 1]) ==> SomeOvertakes(ops)
    ensures Ascending(Run(ops[..|ops| - 1]).typed) && SomeOvertakes(ops) ==>
              SomeOvertakes(ops[..|ops| - 1]) || Regresses(ops, |ops| - 1)
    ensures Regresses(ops, |ops| - 1) ==> SomeOvertakes(ops)
  {
    var front := ops[..|ops| - 1];
    if SomeOvertakes(front) {
      var i: nat, j: nat :| Overtakes(front, i, j);
      FrontRuns(ops, i);
      FrontRuns(ops, j);
      assert Overtakes(ops, i, j);
    }
    if Ascending(Run(front).typed) && SomeOvertakes(ops) {
      var i: nat, j: nat :| Overtakes(ops, i, j);
      if j == |front| {
        OvertakingRegresses(ops, i);
      } else {
        FrontRuns(ops, i);
        FrontRuns(ops, j);
        assert Overtakes(front, i, j);
      }
    }
    if Regresses(ops, |front|) {
      RegressionOvertakes(ops, |front|);
    }
  }

  /** What one more step does to an ordered console. */
  lemma {:induction false} LastStepOrders(ops: seq<Op>)
    requires ops != [] && Ascending(Run(ops[..|ops| - 1]).typed)
    ensures Ascending(Run(ops).typed) <==> !Regresses(ops, |ops| - 1)
  {
    var front := ops[..|ops| - 1];
    HistoryConserves(front);
    HistoryConserves(ops);
    TypedFromFrames(Run(front));
    OneStepOrders(Run(front), ops[|ops| - 1]);
  }

  lemma {:induction false} OneStepOrders(t: Traffic, op: Op)
    requires Ascending(t.typed) && Upto(t.typed, t.seqNo) && DistinctNumbers(Step(t, op).typed)
    ensures Ascending(Step(t, op).typed) <==>
              !(op == Redelivered && t.pending != [] && t.typed != [] && t.pending[0].number < t.typed[|t.typed| - 1].number)
  {
    match op
    case Framed(kind, digest, sent) =>
      if sent {
        var f := Frame(t.seqNo + 1, kind, digest);
        assert t.typed != [] ==> t.typed[|t.typed| - 1] in t.typed;
        LastOrders(t.typed, f);
      }
    case Redelivered =>
      if t.pending != [] {
        LastOrders(t.typed, t.pending[0]);
        var u := t.typed + [t.pending[0]];
        assert t.typed != [] ==> u[|t.typed| - 1].number != u[|t.typed|].number;
      }
    case _ =>
  }

  lemma {:induction false} LastOrders(fs: seq<Frame>, f: Frame)
    requires Ascending(fs)
    ensures Ascending(fs + [f]) <==> (fs == [] || fs[|fs| - 1].number < f.number)
  {
    var all := fs + [f];
    if fs != [] {
      assert all[|fs| - 1] == fs[|fs| - 1] && all[|fs|] == f;
      assert forall k | 0 <= k < |fs| :: fs[k].number <= fs[|fs| - 1].number;
    }
  }

  lemma {:induction false} TypedFromFrames(t: Traffic)
    requires Conserves(t)
    ensures Upto(t.typed, t.seqNo) && Upto(t.pending, t.seqNo) && Ascending(t.pending)
  {
    forall f | f in t.typed || f in t.pending ensures f in t.framed {
      assert f in multiset(t.typed) || f in multiset(t.pending);
      assert f in multiset(t.framed);
    }
  }

  lemma {:induction false} FrontRuns(ops: seq<Op>, k: nat)
    requires ops != []
    ensures k < |ops| ==> ops[..|ops| - 1][..k] == ops[..k]
  {
  }

  lemma {:induction false} StaysDisordered(ops: seq<Op>)
    requires ops != [] && !Ascending(Run(ops[..|ops| - 1]).typed)
    ensures !Ascending(Run(ops).typed)
  {
    var was, now := Run(ops[..|ops| - 1]).typed, Run(ops).typed;
    TypedGrows(ops, |ops| - 1);
    var i, j :| 0 <= i < j < |was| && was[i].number >= was[j].number;
    assert now[i] == was[i] && now[j] == was[j];
  }

  // ---------------------------------------------------------------- the two halves

  /** What is on the console stays there. */
  lemma {:induction false} TypedGrows(ops: seq<Op>, k: nat)
    requires k <= |ops|
    ensures Run(ops[..k]).typed <= Run(ops).typed
    decreases |ops|
  {
    if k < |ops| {
      TypedGrows(ops[..|ops| - 1], k);
      assert ops[..|ops| - 1][..k] == ops[..k];
      StepGrows(Run(ops[..|ops| - 1]), ops[|ops| - 1]);
    } else {
      assert ops[..k] == ops;
    }
  }

  lemma {:induction false} StepGrows(t: Traffic, op: Op)
    ensures t.typed <= Step(t, op).typed && t.seqNo <= Step(t, op).seqNo
  {
  }

  /** A frame that waits now waited at every moment since it was numbered. */
  lemma {:induction false} WaitedSince(ops: seq<Op>, k: nat, f: Frame)
    requires k <= |ops| && f in Run(ops).pending && f.number <= Run(ops[..k]).seqNo
    ensures f in Run(ops[..k]).pending
    decreases |ops|
  {
    if k < |ops| {
      var front := ops[..|ops| - 1];
      assert front[..k] == ops[..k];
      NumbersGrow(front, k);
      assert f in Run(front).pending;
      WaitedSince(front, k, f);
    } else {
      assert ops[..k] == ops;
    }
  }

  lemma {:induction false} NumbersGrow(ops: seq<Op>, k: nat)
    requires k <= |ops|
    ensures Run(ops[..k]).seqNo <= Run(ops).seqNo
    decreases |ops|
  {
    if k < |ops| {
      NumbersGrow(ops[..|ops| - 1], k);
      assert ops[..|ops| - 1][..k] == ops[..k];
      StepGrows(Run(ops[..|ops| - 1]), ops[|ops| - 1]);
    } else {
      assert ops[..k] == ops;
    }
  }

  /** Step `i` puts `g` on the console. */
  predicate Types(ops: seq<Op>, i: nat, g: Frame) {
    && i < |ops|
    && ((Redelivers(ops, i) && g == Run(ops[..i]).pending[0])
        || (SendsAtOnce(ops[i]) && g == Frame(Run(ops[..i]).seqNo + 1, ops[i].kind, ops[i].digest)))
  }

  lemma {:induction false} TypedSomewhere(ops: seq<Op>, g: Frame) returns (i: nat)
    requires g in Run(ops).typed
    ensures Types(ops, i, g)
  {
    var front := ops[..|ops| - 1];
    if g in Run(front).typed {
      i := TypedSomewhere(front, g);
      assert front[..i] == ops[..i];
    } else {
      i := |front|;
    }
  }

  /** A step that goes back behind the console redelivers a frame that an event had overtaken. */
  lemma {:induction false} RegressionOvertakes(ops: seq<Op>, j: nat)
    requires Regresses(ops, j)
    ensures SomeOvertakes(ops)
  {
    var front := ops[..j];
    var i := OvertakenBy(front);
    assert front[..i] == ops[..i] && front[i] == ops[i];
    assert Overtakes(ops, i, j);
  }

  lemma {:induction false} OvertakenBy(ops: seq<Op>) returns (i: nat)
    requires var t := Run(ops); t.pending != [] && t.typed != [] && t.pending[0].number < t.typed[|t.typed| - 1].number
    ensures i < |ops| && SendsAtOnce(ops[i]) && Run(ops).pending[0] in Run(ops[..i]).pending
  {
    var t := Run(ops);
    var f, g := t.pending[0], t.typed[|t.typed| - 1];
    assert f in t.pending && g in t.typed;
    i := OvertakenAt(ops, f, g);
  }

  lemma {:induction false} OvertakenAt(ops: seq<Op>, f: Frame, g: Frame) returns (i: nat)
    requires f in Run(ops).pending && g in Run(ops).typed && f.number < g.number
    ensures i < |ops| && SendsAtOnce(ops[i]) && f in Run(ops[..i]).pending
  {
    i := TypedSomewhere(ops, g);
    OlderWaited(ops, i, f, g);
  }

  /** A waiting frame older than one on the console waited when that one was typed, which was at once. */
  lemma {:induction false} OlderWaited(ops: seq<Op>, i: nat, f: Frame, g: Frame)
    requires Types(ops, i, g) && f in Run(ops).pending && f.number < g.number
    ensures f in Run(ops[..i]).pending && SendsAtOnce(ops[i])
  {
    var at := Run(ops[..i]);
    HistoryConserves(ops[..i]);
    TypedFromFrames(at);
    WaitedSince(ops, i, f);
    HeadIsOldest(at.pending, f);
  }

  lemma {:induction false} HeadIsOldest(pending: seq<Frame>, f: Frame)
    requires Ascending(pending) && f in pending
    ensures pending[0].number <= f.number
  {
  }

  /** An event typed at once past a frame that the last step redelivers is newer than that frame. */
  lemma {:induction false} OvertakingRegresses(ops: seq<Op>, i: nat)
    requires ops != [] && Ascending(Run(ops[..|ops| - 1]).typed) && Overtakes(ops, i, |ops| - 1)
    ensures Regresses(ops, |ops| - 1)
  {
    var front := ops[..|ops| - 1];
    var t := Run(front);
    SentIsTyped(front, i);
    assert front[..i] == ops[..i];
    HistoryConserves(ops[..i]);
    TypedFromFrames(Run(ops[..i]));
    var at := Run(ops[..i]);
    assert t.pending[0].number <= at.seqNo;
    assert t.typed[|at.typed|].number <= t.typed[|t.typed| - 1].number;
  }

  lemma {:induction false} SentIsTyped(ops: seq<Op>, i: nat)
    requires i < |ops| && SendsAtOnce(ops[i])
    ensures var at, t := Run(ops[..i]), Run(ops); |at.typed| < |t.typed| && t.typed[|at.typed|].number == at.seqNo + 1
  {
    assert ops[..i + 1] == ops[..i] + [ops[i]];
    RunSnoc(ops[..i], ops[i]);
    TypedGrows(ops, i + 1);
  }

  /** An event typed at once only when nothing waits keeps the console in order. */
  lemma {:induction false} TypingWhenNothingWaits(ops: seq<Op>)
    requires forall i | 0 <= i < |ops| && SendsAtOnce(ops[i]) :: Run(ops[..i]).pending == []
    ensures Ascending(Run(ops).typed)
  {
    InOrderExactly(ops);
  }
}
