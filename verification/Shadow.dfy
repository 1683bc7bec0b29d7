/**
  The shell shadow: a per-shell supervisor that types numbered frames into its shell, keeps a bounded
  queue of frames that could not be typed, tails a command file, and mirrors itself into a ledger that
  outlives it.  Everything outside (the shell, the driver, the clock, engine state) may answer anything.
 */
module Shadow {
  import opened Options

  datatype Frame = Frame(number: nat, kind: string, digest: string)

  datatype Event = Event(kind: string, digest: string)

  datatype Mode = Auto | Silenced

  datatype Life = Init | Launching | Ready | Crashed | Closed

  datatype Driver = NoDriver | Running | Stopped

  datatype Wake = Wake(number: nat, kind: string, delivered: bool)

  datatype Cmd = Silence | ResumeAuto | Rearm | Observe(spec: string) | Pace(interval: real) | BadPace | OtherVerb

  /** A command line is not JSON, is JSON but not an object, or is a command; `BadPace` is a pace whose
      interval is set and is no number. */
  datatype Parsed = NotJson | NotObject | Command(cmd: Cmd)

  /** The line raises, and the rest of its batch is lost. */
  predicate Stops(p: Parsed) {
    p == NotObject || p == Command(BadPace)
  }

  datatype Ledger = Ledger(
    state: Life, spec: string, restarts: nat, heartbeat: real, mode: Mode,
    wakesSeq: nat, wakesPending: nat, wakes: seq<Wake>)

  const WAKE_KINDS := {
    "mail", "tick", "flowback", "resumed", "orphan", "alert", "done", "plan_closed", "step_done",
    "question", "answer", "steer", "crashed", "ready", "progress", "observation", "verdict", "consult",
    "review_comments", "grounding", "fyi" }

  const PENDING_MAX := 20
  const WAKES_KEPT := 20
  const DEFAULT_HEARTBEAT := 300.0

  // ---------------------------------------------------------------- the bounded queue

  /** The last `n` elements, or all of them. */
  function Newest<T>(s: seq<T>, n: nat): seq<T> {
    if |s| <= n then s else s[|s| - n..]
  }

  function Enqueue(pending: seq<Frame>, f: Frame): seq<Frame> {
    Newest(pending + [f], PENDING_MAX)
  }

  function EnqueueAll(pending: seq<Frame>, fs: seq<Frame>): seq<Frame> {
    if fs == [] then pending else Enqueue(EnqueueAll(pending, fs[..|fs| - 1]), fs[|fs| - 1])
  }

  predicate Ascending(fs: seq<Frame>) {
    forall i, j | 0 <= i < j < |fs| :: fs[i].number < fs[j].number
  }

  lemma {:induction false} EnqueueAllKeepsNewest(pending: seq<Frame>, fs: seq<Frame>)
    requires |pending| <= PENDING_MAX
    ensures EnqueueAll(pending, fs) == Newest(pending + fs, PENDING_MAX)
  {
    if fs == [] {
      assert pending + fs == pending;
    } else {
      var front, last := fs[..|fs| - 1], fs[|fs| - 1];
      EnqueueAllKeepsNewest(pending, front);
      assert pending + fs == pending + front + [last];
    }
  }

  /** Redelivery types the head of the queue and then pops the head.  When events on the driver's
      thread fail in between, the popped frame is the typed one if and only if the queue did not
      overflow; otherwise a frame that was never typed is thrown away. */
  lemma {:induction false} PopTakesTypedFrameExactly(pending: seq<Frame>, failed: seq<Frame>)
    requires 0 < |pending| <= PENDING_MAX && Ascending(pending + failed)
    ensures EnqueueAll(pending, failed)[..1] == pending[..1] <==> |pending| + |failed| <= PENDING_MAX
  {
    EnqueueAllKeepsNewest(pending, failed);
    var all := pending + failed;
    assert all[0] == pending[0];
    if |all| > PENDING_MAX {
      assert Newest(all, PENDING_MAX)[0] == all[|all| - PENDING_MAX];
      assert all[0].number < all[|all| - PENDING_MAX].number;
      assert pending[..1][0] != EnqueueAll(pending, failed)[..1][0];
    } else {
      assert pending[..1] == [pending[0]];
    }
  }

  // ---------------------------------------------------------------- the command file

  /** Where `splitlines` breaks a text; `\\r` does not reach it, reading turns it into `\\n`. */
  predicate IsBreak(c: char) {
    c in {'\n', '\U{0B}', '\U{0C}', '\U{1C}', '\U{1D}', '\U{1E}', '\U{85}', '\U{2028}', '\U{2029}'}
  }

  /** The lines of a text, as `splitlines` gives them. */
  function Lines(s: string): seq<string> {
    if s == "" then []
    else
      var rest := Lines(s[1..]);
      if IsBreak(s[0]) then [""] + rest
      else if rest == [] || s[1..] == "" then [[s[0]]]
      else Glued(s[0], rest)
  }

  /** The lines with `c` put before the first. */
  function Glued(c: char, lines: seq<string>): seq<string>
    requires lines != []
  {
    [[c] + lines[0]] + lines[1..]
  }

  lemma {:induction false} GluedConcat(c: char, xs: seq<string>, ys: seq<string>)
    requires xs != []
    ensures Glued(c, xs + ys) == Glued(c, xs) + ys
  {
  }

  predicate EndsLine(s: string) {
    s == "" || IsBreak(s[|s| - 1])
  }

  lemma {:induction false} LinesCons(c: char, s: string)
    requires s != "" || IsBreak(c)
    ensures s != "" ==> Lines(s) != []
    ensures Lines([c] + s) == if IsBreak(c) then [""] + Lines(s) else Glued(c, Lines(s))
  {
    assert ([c] + s)[1..] == s;
    LinesNonempty(s);
  }

  lemma {:induction false} LinesConcat(a: string, b: string)
    requires EndsLine(a)
    ensures Lines(a + b) == Lines(a) + Lines(b)
    decreases |a|
  {
    if a == "" {
      assert a + b == b;
    } else {
      var c, rest := a[0], a[1..];
      assert a == [c] + rest && a + b == [c] + (rest + b);
      LinesConcat(rest, b);
      LinesCons(c, rest);
      LinesCons(c, rest + b);
      if IsBreak(c) {
        assert [""] + (Lines(rest) + Lines(b)) == [""] + Lines(rest) + Lines(b);
      } else {
        GluedConcat(c, Lines(rest), Lines(b));
      }
    }
  }

  lemma {:induction false} LinesNonempty(s: string)
    ensures Lines(s) == [] <==> s == ""
  {
  }

  lemma {:induction false} TornCount(a: string, b: string)
    requires !EndsLine(a) && b != ""
    ensures |Lines(a + b)| == |Lines(a)| + |Lines(b)| - 1
    decreases |a|
  {
    assert (a + b)[1..] == a[1..] + b;
    LinesNonempty(b);
    if |a| == 1 {
      assert a[1..] + b == b;
    } else {
      TornCount(a[1..], b);
      LinesNonempty(a[1..]);
      LinesNonempty(a[1..] + b);
    }
  }

  /** Reading a file in two chunks sees the lines of the whole if and only if the cut is between lines. */
  lemma {:induction false} CutBetweenLinesExactly(a: string, b: string)
    requires b != ""
    ensures Lines(a + b) == Lines(a) + Lines(b) <==> EndsLine(a)
  {
    if EndsLine(a) {
      LinesConcat(a, b);
    } else {
      TornCount(a, b);
    }
  }

  function Commands(parse: string -> Parsed, lines: seq<string>): seq<Cmd> {
    if lines == [] then []
    else (if parse(lines[0]).Command? then [parse(lines[0]).cmd] else []) + Commands(parse, lines[1..])
  }

  lemma {:induction false} CommandsConcat(parse: string -> Parsed, a: seq<string>, b: seq<string>)
    ensures Commands(parse, a + b) == Commands(parse, a) + Commands(parse, b)
  {
    if a == [] {
      assert a + b == b;
    } else {
      var line, more := a[0], a[1..];
      assert a == [line] + more;
      CommandsConcat(parse, more, b);
      CommandsCons(parse, line, more);
      CommandsCons(parse, line, more + b);
      assert [line] + more + b == [line] + (more + b);
    }
  }

  lemma {:induction false} CommandsCons(parse: string -> Parsed, line: string, more: seq<string>)
    ensures Commands(parse, [line] + more) ==
            (if parse(line).Command? then [parse(line).cmd] else []) + Commands(parse, more)
  {
    assert ([line] + more)[1..] == more;
  }

  // ---------------------------------------------------------------- commands

  /** The part of the shadow that commands steer. */
  datatype Controls = Controls(mode: Mode, driver: Driver, restarts: nat, spec: string, heartbeat: real)

  function Halt(d: Driver): Driver {
    if d == NoDriver then NoDriver else Stopped
  }

  function Armed(hosted: bool, d: Driver): Driver {
    if hosted then Running else d
  }

  /** `hosted`: the shadow has a driver factory. */
  function Apply(c: Controls, cmd: Cmd, hosted: bool): Controls {
    match cmd
    case Silence => c.(mode := Silenced, driver := Halt(c.driver))
    case ResumeAuto => c.(mode := Auto, driver := Armed(hosted, c.driver))
    case Rearm => c.(restarts := c.restarts + 1, driver := Armed(hosted, Halt(c.driver)))
    case Observe(spec) =>
      if spec == "" then c
      else c.(spec := if c.spec == "" then spec else "rx.merge(" + c.spec + ", " + spec + ")",
              driver := Armed(hosted, Halt(c.driver)))
    case Pace(interval) => if interval == 0.0 then c else c.(heartbeat := interval)
    case BadPace => c
    case OtherVerb => c
  }

  // ---------------------------------------------------------------- the history of a handle

  /** What happened to events and frames, over all the shadows of one handle. */
  datatype Op =
    | Attached                                            // a new shadow took over: its queue starts empty
    | Counted                                             // an event took a number and made no frame
    | Framed(kind: string, digest: string, sent: bool)    // an event made a frame, typed at once or queued
    | Redelivered                                         // the head of the queue was typed

  datatype Traffic = Traffic(
    seqNo: nat,
    numbers: seq<nat>,       // the number each event was given
    framed: seq<Frame>,
    typed: seq<Frame>,
    pending: seq<Frame>,
    dropped: seq<Frame>,     // cut off by the bound
    lost: seq<Frame>,        // queued in a shadow that was replaced
    failed: seq<Frame>)      // this shadow's frames whose first delivery failed

  const NO_TRAFFIC := Traffic(0, [], [], [], [], [], [], [])

  function Step(t: Traffic, op: Op): Traffic {
    match op
    case Attached => t.(pending := [], lost := t.lost + t.pending, failed := [])
    case Counted => t.(seqNo := t.seqNo + 1, numbers := t.numbers + [t.seqNo + 1])
    case Framed(kind, digest, sent) =>
      var f := Frame(t.seqNo + 1, kind, digest);
      var u := t.(seqNo := t.seqNo + 1, numbers := t.numbers + [t.seqNo + 1], framed := t.framed + [f]);
      if sent then u.(typed := t.typed + [f])
      else u.(pending := Enqueue(t.pending, f), dropped := t.dropped + Cut(t.pending, f), failed := t.failed + [f])
    case Redelivered =>
      if t.pending == [] then t else t.(typed := t.typed + [t.pending[0]], pending := t.pending[1..])
  }

  function Run(ops: seq<Op>): Traffic {
    if ops == [] then NO_TRAFFIC else Step(Run(ops[..|ops| - 1]), ops[|ops| - 1])
  }

  lemma {:induction false} RunSnoc(ops: seq<Op>, op: Op)
    ensures Run(ops + [op]) == Step(Run(ops), op)
  {
    assert (ops + [op])[..|ops|] == ops;
  }

  /** What the bound cuts off when `f` joins the queue. */
  function Cut(pending: seq<Frame>, f: Frame): seq<Frame> {
    (pending + [f])[..|pending| + 1 - |Enqueue(pending, f)|]
  }

  // ---------------------------------------------------------------- conservation

  predicate Upto(fs: seq<Frame>, n: nat) {
    forall f | f in fs :: 0 < f.number <= n
  }

  /** Every frame made is typed, waiting, dropped by the bound, or lost with a replaced shadow; what
      waits is the newest part of what failed, in order and at most 20 long; numbers are never reused. */
  ghost predicate Conserves(t: Traffic) {
    Balanced(t) && Queued(t) && Ordered(t) && Counts(t)
  }

  ghost predicate Balanced(t: Traffic) {
    multiset(t.framed) == multiset(t.typed) + multiset(t.pending) + multiset(t.dropped) + multiset(t.lost)
  }

  ghost predicate Queued(t: Traffic) {
    && |t.pending| <= PENDING_MAX
    && |t.pending| <= |t.failed| && t.pending == t.failed[|t.failed| - |t.pending|..]
  }

  ghost predicate Ordered(t: Traffic) {
    && Ascending(t.framed) && Upto(t.framed, t.seqNo)
    && Ascending(t.failed) && Upto(t.failed, t.seqNo)
  }

  ghost predicate Counts(t: Traffic) {
    |t.numbers| == t.seqNo && forall i | 0 <= i < |t.numbers| :: t.numbers[i] == i + 1
  }

  lemma {:induction false} AscendingPush(fs: seq<Frame>, f: Frame)
    requires f.number > 0 && Ascending(fs) && Upto(fs, f.number - 1)
    ensures Ascending(fs + [f]) && Upto(fs + [f], f.number)
  {
    assert forall i | 0 <= i < |fs| :: fs[i] in fs;
  }

  /** The queue after `f` joins it is still the newest part of what failed. */
  lemma {:induction false} QueueKeepsNewest(pending: seq<Frame>, failed: seq<Frame>, f: Frame)
    requires |pending| <= |failed| && pending == failed[|failed| - |pending|..]
    ensures var kept, more := Enqueue(pending, f), failed + [f];
            |kept| <= PENDING_MAX && |kept| <= |more| && kept == more[|more| - |kept|..]
  {
    var all, kept, more := pending + [f], Enqueue(pending, f), failed + [f];
    assert all == more[|more| - |all|..];
    assert kept == all[|all| - |kept|..];
    assert kept == more[|more| - |kept|..];
  }

  /** What the bound cuts off and what stays make up the queue and the new frame. */
  lemma {:induction false} QueueSplits(pending: seq<Frame>, f: Frame)
    ensures multiset(Cut(pending, f)) + multiset(Enqueue(pending, f)) == multiset(pending) + multiset{f}
  {
    assert pending + [f] == Cut(pending, f) + Enqueue(pending, f);
    assert multiset(pending + [f]) == multiset(Cut(pending, f)) + multiset(Enqueue(pending, f));
  }

  lemma {:induction false} HeadMoves(pending: seq<Frame>, typed: seq<Frame>)
    requires pending != []
    ensures multiset(typed + [pending[0]]) + multiset(pending[1..]) == multiset(typed) + multiset(pending)
  {
    assert pending == [pending[0]] + pending[1..];
  }

  lemma {:induction false} Regroup(typed: multiset<Frame>, pending: multiset<Frame>, dropped: multiset<Frame>, lost: multiset<Frame>,
                kept: multiset<Frame>, cut: multiset<Frame>, f: multiset<Frame>)
    requires cut + kept == pending + f
    ensures typed + pending + dropped + lost + f == typed + kept + (dropped + cut) + lost
  {
    forall x ensures (typed + pending + dropped + lost + f)[x] == (typed + kept + (dropped + cut) + lost)[x] {
      assert (cut + kept)[x] == (pending + f)[x];
    }
  }

  lemma {:induction false} QueuedBalanced(t: Traffic, f: Frame)
    requires Balanced(t)
    requires multiset(Cut(t.pending, f)) + multiset(Enqueue(t.pending, f)) == multiset(t.pending) + multiset{f}
    ensures Balanced(t.(framed := t.framed + [f], pending := Enqueue(t.pending, f), dropped := t.dropped + Cut(t.pending, f)))
  {
    var kept, cut := Enqueue(t.pending, f), Cut(t.pending, f);
    Regroup(multiset(t.typed), multiset(t.pending), multiset(t.dropped), multiset(t.lost), multiset(kept), multiset(cut), multiset{f});
    assert multiset(t.dropped + cut) == multiset(t.dropped) + multiset(cut);
    assert multiset(t.framed + [f]) == multiset(t.framed) + multiset{f};
  }

  lemma {:induction false} TypedBalanced(t: Traffic, f: Frame)
    requires Balanced(t)
    ensures Balanced(t.(framed := t.framed + [f], typed := t.typed + [f]))
  {
    assert multiset(t.framed + [f]) == multiset(t.framed) + multiset{f};
    assert multiset(t.typed + [f]) == multiset(t.typed) + multiset{f};
  }

  lemma {:induction false} RedeliveredBalanced(t: Traffic)
    requires Balanced(t) && t.pending != []
    ensures Balanced(t.(typed := t.typed + [t.pending[0]], pending := t.pending[1..]))
  {
    HeadMoves(t.pending, t.typed);
  }

  lemma {:induction false} StepBalanced(t: Traffic, op: Op)
    requires Balanced(t)
    ensures Balanced(Step(t, op))
  {
    match op
    case Framed(kind, digest, sent) => FramedBalanced(t, kind, digest, sent);
    case Redelivered =>
      if t.pending != [] {
        RedeliveredBalanced(t);
      }
    case Attached =>
      assert multiset(t.lost + t.pending) == multiset(t.lost) + multiset(t.pending);
    case _ =>
  }

  lemma {:induction false} FramedBalanced(t: Traffic, kind: string, digest: string, sent: bool)
    requires Balanced(t)
    ensures Balanced(Step(t, Framed(kind, digest, sent)))
  {
    var f := Frame(t.seqNo + 1, kind, digest);
    if sent {
      TypedBalanced(t, f);
    } else {
      QueueSplits(t.pending, f);
      QueuedBalanced(t, f);
    }
  }

  lemma {:induction false} StepQueued(t: Traffic, op: Op)
    requires Queued(t)
    ensures Queued(Step(t, op))
  {
    match op
    case Framed(kind, digest, sent) =>
      if !sent {
        QueueKeepsNewest(t.pending, t.failed, Frame(t.seqNo + 1, kind, digest));
      }
    case Redelivered =>
      TailIsNewest(t.pending, t.failed);
    case _ =>
  }

  lemma {:induction false} TailIsNewest(pending: seq<Frame>, failed: seq<Frame>)
    requires |pending| <= |failed| && pending == failed[|failed| - |pending|..]
    ensures pending != [] ==> pending[1..] == failed[|failed| - |pending[1..]|..]
  {
  }

  lemma {:induction false} StepOrdered(t: Traffic, op: Op)
    requires Ordered(t)
    ensures Ordered(Step(t, op))
  {
    match op
    case Framed(kind, digest, sent) =>
      var f := Frame(t.seqNo + 1, kind, digest);
      AscendingPush(t.framed, f);
      if !sent {
        AscendingPush(t.failed, f);
      }
    case _ =>
  }

  lemma {:induction false} StepCounts(t: Traffic, op: Op)
    requires Counts(t)
    ensures Counts(Step(t, op))
  {
  }

  predicate DistinctNumbers(fs: seq<Frame>) {
    forall i, j | 0 <= i < j < |fs| :: fs[i].number != fs[j].number
  }

  /** Main result, over every history of a handle: conservation, each event takes the next number, and
      no frame is typed twice, in one shadow or across shadows. */
  lemma {:induction false} HistoryConserves(ops: seq<Op>)
    ensures Conserves(Run(ops)) && DistinctNumbers(Run(ops).typed)
  {
    if ops != [] {
      HistoryConserves(ops[..|ops| - 1]);
      StepBalanced(Run(ops[..|ops| - 1]), ops[|ops| - 1]);
      StepQueued(Run(ops[..|ops| - 1]), ops[|ops| - 1]);
      StepOrdered(Run(ops[..|ops| - 1]), ops[|ops| - 1]);
      StepCounts(Run(ops[..|ops| - 1]), ops[|ops| - 1]);
    }
    var t := Run(ops);
    TypedOnce(t.framed, t.typed, multiset(t.pending) + multiset(t.dropped) + multiset(t.lost));
  }

  lemma {:induction false} TypedOnce(framed: seq<Frame>, typed: seq<Frame>, rest: multiset<Frame>)
    requires Ascending(framed) && multiset(framed) == multiset(typed) + rest
    ensures DistinctNumbers(typed)
  {
    forall i, j | 0 <= i < j < |typed| ensures typed[i].number != typed[j].number {
      if typed[i] == typed[j] {
        OccursTwice(typed, i, j);
        AscendingOnce(framed, typed[i]);
        assert false;
      } else {
        assert typed[i] in multiset(typed) && typed[j] in multiset(typed);
        assert typed[i] in multiset(framed) && typed[j] in multiset(framed);
        var a :| 0 <= a < |framed| && framed[a] == typed[i];
        var b :| 0 <= b < |framed| && framed[b] == typed[j];
        assert a < b || b < a;
      }
    }
  }

  lemma {:induction false} OccursTwice(s: seq<Frame>, i: nat, j: nat)
    requires i < j < |s| && s[i] == s[j]
    ensures multiset(s)[s[i]] >= 2
  {
    assert s == s[..j] + [s[j]] + s[j + 1..];
    assert s[..j] == s[..i] + [s[i]] + s[i + 1..j];
  }

  lemma {:induction false} AscendingOnce(s: seq<Frame>, f: Frame)
    requires Ascending(s)
    ensures multiset(s)[f] <= 1
  {
    if s != [] {
      var front := s[..|s| - 1];
      assert s == front + [s[|s| - 1]];
      AscendingOnce(front, f);
      forall i | 0 <= i < |front| ensures front[i] != s[|s| - 1] {
        assert s[i].number < s[|s| - 1].number;
      }
    }
  }

  // ---------------------------------------------------------------- the shadow

  /** What a shadow asked of the outside, and what it was told. */
  datatype Answer =
    | Alive(yes: bool)                 // is the shell alive?
    | Sent(ok: bool)                   // could the line be typed?
    | DriverRuns(yes: bool)
    | PaceRead(pace: Option<real>)
    | WorkEnded(yes: bool)

  /** The ledger, the command file and the console of one handle, which outlive its shadows. */
  class Desk {
    var ledger: Option<Ledger>
    var cmdFile: string
    ghost var history: seq<Op>
    ghost var typed: seq<Frame>        // every frame typed on the console after a first line
    ghost var answers: seq<Answer>

    constructor ()
      ensures Settled() && ledger == None && history == []
    {
      ledger, cmdFile, history, typed, answers := None, "", [], [], [];
    }

    /** Between two steps of a shadow: the ledger knows how many numbers are spent. */
    ghost predicate Settled()
      reads this
    {
      && Run(history).seqNo == (if ledger.Some? then ledger.value.wakesSeq else 0)
      && typed == Run(history).typed
    }
  }

  class ShellShadow {
    const desk: Desk
    const parse: string -> Parsed
    const hosted: bool                 // it has a driver factory
    var seqNo: nat
    var restarts: nat
    var cmdPos: nat
    var mode: Mode
    var life: Life
    var wakes: seq<Wake>
    var pending: seq<Frame>
    var spec: string
    var heartbeat: real
    var lastTick: real
    var driver: Driver
    var launched: bool
    var stopping: bool
    ghost var applied: seq<Cmd>

    /** Memory agrees with the history. */
    ghost predicate Core()
      reads this, desk
    {
      var t := Run(desk.history);
      seqNo == t.seqNo && pending == t.pending && desk.typed == t.typed
    }

    /** The ledger says what memory says. */
    ghost predicate Mirrored()
      reads this, desk
    {
      desk.ledger == Some(Ledger(life, spec, restarts, heartbeat, mode, seqNo, |pending|, Newest(wakes, WAKES_KEPT)))
    }

    ghost predicate Valid()
      reads this, desk
    {
      Core() && Mirrored()
    }

    /** The commands applied are those of the whole lines of the file read so far, once each, in order. */
    ghost predicate UpToDate()
      reads this, desk
    {
      cmdPos <= |desk.cmdFile| && applied == Commands(parse, Lines(desk.cmdFile[..cmdPos]))
    }

    function Steering(): Controls
      reads this
    {
      Controls(mode, driver, restarts, spec, heartbeat)
    }

    /** A new shadow continues its predecessor's numbering and restart count; its mode, its queue and
        its place in the command file start afresh. */
    constructor (desk: Desk, parse: string -> Parsed, hosted: bool, spec: string, heartbeat: real)
      requires desk.Settled()
      modifies desk`history
      ensures Core() && desk.history == old(desk.history) + [Attached]
      ensures this.desk == desk && this.parse == parse && this.hosted == hosted
      ensures restarts == (if desk.ledger.Some? then desk.ledger.value.restarts else 0)
      ensures mode == Auto && life == Init && pending == [] && cmdPos == 0 && applied == []
      ensures this.spec == spec && this.heartbeat == heartbeat
    {
      this.desk, this.parse, this.hosted := desk, parse, hosted;
      seqNo, restarts := 0, 0;
      if desk.ledger.Some? {
        seqNo, restarts := desk.ledger.value.wakesSeq, desk.ledger.value.restarts;
      }
      cmdPos, mode, life, wakes, pending := 0, Auto, Init, [], [];
      this.spec, this.heartbeat, lastTick, driver, launched, stopping := spec, heartbeat, 0.0, NoDriver, false, false;
      applied := [];
      new;
      RunSnoc(desk.history, Attached);
      desk.history := desk.history + [Attached];
    }

    method WriteLedger()
      requires Core()
      modifies desk`ledger
      ensures Valid()
    {
      desk.ledger := Some(Ledger(life, spec, restarts, heartbeat, mode, seqNo, |pending|, Newest(wakes, WAKES_KEPT)));
    }

    method ArmDriver()
      modifies this`driver
      ensures driver == Armed(hosted, old(driver))
    {
      if hosted {
        driver := Running;
      }
    }

    method StopDriver()
      modifies this`driver
      ensures driver == Halt(old(driver))
    {
      if driver != NoDriver {
        driver := Stopped;
      }
    }

    /** Launches the shell, types the first line (number 0, outside the numbered frames) and goes live. */
    method Start()
      requires Core()
      modifies this`life, this`driver, this`launched, desk`ledger
      ensures Valid() && life == Ready && launched && driver == Armed(hosted, old(driver))
    {
      life := Launching;
      WriteLedger();
      launched := true;
      life := Ready;
      ArmDriver();
      WriteLedger();
    }

    method ShellAlive() returns (yes: bool)
      modifies desk`answers
      ensures desk.answers == old(desk.answers) + [Alive(yes)]
    {
      yes := *;
      desk.answers := desk.answers + [Alive(yes)];
    }

    /** Types a line, or fails to. */
    method SendLine(f: Frame) returns (ok: bool)
      modifies desk`typed, desk`answers
      ensures desk.typed == if ok then old(desk.typed) + [f] else old(desk.typed)
      ensures desk.answers == old(desk.answers) + [Sent(ok)]
    {
      ok := *;
      desk.answers := desk.answers + [Sent(ok)];
      if ok {
        desk.typed := desk.typed + [f];
      }
    }

    /** Numbers a frame and types it, or queues it when it cannot be typed. */
    method FrameAndSend(kind: string, digest: string) returns (delivered: bool)
      requires Core()
      modifies this`seqNo, this`pending, desk`typed, desk`history, desk`answers
      ensures Core() && seqNo == old(seqNo) + 1
      ensures desk.answers == old(desk.answers) + [Sent(delivered)]
      ensures desk.history == old(desk.history) + [Framed(kind, digest, delivered)]
    {
      seqNo := seqNo + 1;
      var frame := Frame(seqNo, kind, digest);
      delivered := SendLine(frame);
      if !delivered {
        pending := Enqueue(pending, frame);
      }
      RunSnoc(desk.history, Framed(kind, digest, delivered));
      desk.history := desk.history + [Framed(kind, digest, delivered)];
    }

    /** Spends a number on an event that makes no frame. */
    method CountOnly()
      requires Core()
      modifies this`seqNo, desk`history
      ensures Core() && seqNo == old(seqNo) + 1 && desk.history == old(desk.history) + [Counted]
    {
      RunSnoc(desk.history, Counted);
      seqNo := seqNo + 1;
      desk.history := desk.history + [Counted];
    }

    /** One event takes exactly one new number.  In auto mode with a live shell it becomes a frame,
        typed at once or queued; otherwise it is only counted.  Nothing is typed while silenced. */
    method OnEvent(e: Event) returns (made: bool, delivered: bool)
      requires Core()
      modifies this`seqNo, this`pending, this`wakes, desk`ledger, desk`typed, desk`history, desk`answers
      ensures Valid() && seqNo == old(seqNo) + 1
      ensures desk.answers == old(desk.answers) +
                if mode == Auto && launched then [Alive(made)] + (if made then [Sent(delivered)] else []) else []
      ensures !(mode == Auto && launched) ==> !made
      ensures desk.history == old(desk.history) +
                [if made then Framed(if e.kind in WAKE_KINDS then e.kind else "mail", e.digest, delivered) else Counted]
      ensures !made ==> desk.typed == old(desk.typed) && pending == old(pending)
      ensures wakes == old(wakes) + [Wake(seqNo, if e.kind in WAKE_KINDS then e.kind else "mail", made && delivered)]
    {
      var kind := if e.kind in WAKE_KINDS then e.kind else "mail";
      made, delivered := false, false;
      if mode == Auto && launched {
        made := ShellAlive();
      }
      if made {
        delivered := FrameAndSend(kind, e.digest);
      } else {
        CountOnly();
      }
      wakes := wakes + [Wake(seqNo, kind, delivered)];
      WriteLedger();
    }

    /** Types the head of the queue and takes it off, or leaves everything as it was. */
    method RedeliverHead() returns (ok: bool)
      requires Valid() && pending != []
      modifies this`pending, desk`ledger, desk`typed, desk`history, desk`answers
      ensures Valid() && desk.answers == old(desk.answers) + [Sent(ok)]
      ensures pending == if ok then old(pending)[1..] else old(pending)
      ensures desk.typed == if ok then old(desk.typed) + [old(pending)[0]] else old(desk.typed)
      ensures desk.history == if ok then old(desk.history) + [Redelivered] else old(desk.history)
    {
      ok := SendLine(pending[0]);
      if ok {
        RunSnoc(desk.history, Redelivered);
        desk.history := desk.history + [Redelivered];
        pending := pending[1..];
        WriteLedger();
      }
    }

    /** Redelivers queued frames in order, stopping only when none is left, the shell is found dead, or a
        frame fails again. */
    method Redeliver()
      requires Valid()
      modifies this`pending, desk`ledger, desk`typed, desk`history, desk`answers
      ensures Valid()
      ensures desk.typed + pending == old(desk.typed) + old(pending)
      ensures |pending| <= |old(pending)| && desk.history == old(desk.history) + Times(Redelivered, |old(pending)| - |pending|)
      ensures !launched ==> pending == old(pending)
      ensures old(desk.answers) <= desk.answers
      ensures pending != [] && launched ==>
                |old(desk.answers)| < |desk.answers| && desk.answers[|desk.answers| - 1] in {Alive(false), Sent(false)}
    {
      ghost var queue, typed, history, asked := pending, desk.typed, desk.history, desk.answers;
      NoneMoved(queue, typed, history);
      while pending != [] && launched
        invariant Valid() && asked <= desk.answers
        invariant Moved(queue, typed, history, pending, desk.typed, desk.history)
        invariant !launched ==> pending == queue
        decreases |pending|
      {
        var alive := ShellAlive();
        if !alive {
          break;
        }
        OneMoved(queue, typed, history, pending, desk.typed, desk.history);
        var ok := RedeliverHead();
        if !ok {
          break;
        }
      }
    }

    /** Is the driver's thread alive?  One that was stopped is not. */
    method DriverAlive() returns (runs: bool)
      modifies desk`answers
      ensures desk.answers == old(desk.answers) + [DriverRuns(runs)]
      ensures driver == Stopped ==> !runs
    {
      runs := *;
      runs := runs && driver != Stopped;
      desk.answers := desk.answers + [DriverRuns(runs)];
    }

    /** A driver that is not alive is armed again and counted, also one that was stopped on purpose
        when the shell crashed. */
    method SuperviseDriver()
      requires Valid()
      modifies this`driver, this`restarts, desk`ledger, desk`answers
      ensures Valid()
      ensures !hosted || old(driver) == NoDriver ==>
                driver == old(driver) && restarts == old(restarts) && desk.answers == old(desk.answers)
      ensures hosted && old(driver) != NoDriver ==>
                && |desk.answers| == |old(desk.answers)| + 1 && old(desk.answers) <= desk.answers
                && var answer := desk.answers[|old(desk.answers)|];
                && answer.DriverRuns? && (old(driver) == Stopped ==> !answer.yes)
                && driver == (if answer.yes then old(driver) else Running)
                && restarts == old(restarts) + if answer.yes then 0 else 1
    {
      if hosted && driver != NoDriver {
        var runs := DriverAlive();
        if !runs {
          restarts := restarts + 1;
          ArmDriver();
          WriteLedger();
        }
      }
    }

    /** Applies one command and writes the ledger; a pace that is no number raises before anything changes. */
    method ApplyCmd(cmd: Cmd) returns (raised: bool)
      requires Core()
      modifies this`mode, this`driver, this`restarts, this`spec, this`heartbeat, this`applied, desk`ledger
      ensures raised <==> cmd == BadPace
      ensures raised ==> Core() && Steering() == old(Steering()) && applied == old(applied) && desk.ledger == old(desk.ledger)
      ensures !raised ==> Valid() && Steering() == Apply(old(Steering()), cmd, hosted) && applied == old(applied) + [cmd]
    {
      match cmd {
        case Silence =>
          mode := Silenced;
          StopDriver();
        case ResumeAuto =>
          mode := Auto;
          ArmDriver();
        case Rearm =>
          StopDriver();
          restarts := restarts + 1;
          ArmDriver();
        case Observe(more) =>
          if more != "" {
            spec := if spec != "" then "rx.merge(" + spec + ", " + more + ")" else more;
            StopDriver();
            ArmDriver();
          }
        case Pace(interval) =>
          if interval != 0.0 {
            heartbeat := interval;
          }
        case BadPace =>
          return true;
        case OtherVerb =>
      }
      applied := applied + [cmd];
      WriteLedger();
      return false;
    }

    /** Applies the commands of some lines in order, up to the first line that raises. */
    method ApplyLines(lines: seq<string>) returns (raised: bool)
      requires Valid()
      modifies this`mode, this`driver, this`restarts, this`spec, this`heartbeat, this`applied, desk`ledger
      ensures Valid()
      ensures raised <==> Prefix(parse, lines) != lines
      ensures applied == old(applied) + Commands(parse, Prefix(parse, lines))
      ensures Steering() == ApplyAll(old(Steering()), Commands(parse, Prefix(parse, lines)), hosted)
    {
      ghost var was := Steering();
      ghost var cmds: seq<Cmd> := [];
      for i := 0 to |lines|
        invariant Valid()
        invariant Batch(parse, lines, i, cmds)
        invariant applied == old(applied) + cmds && Steering() == ApplyAll(was, cmds, hosted)
      {
        var p := parse(lines[i]);
        BatchStep(parse, lines, i, cmds);
        if p == NotObject {
          return true;
        }
        if p.Command? {
          ApplyAllSnoc(was, cmds, p.cmd, hosted);
          raised := ApplyCmd(p.cmd);
          if raised {
            return;
          }
          cmds := cmds + [p.cmd];
        }
      }
      assert lines[..|lines|] == lines;
      return false;
    }

    /** Reads what the command file has gained since the last time and applies its lines. */
    method DrainCmds() returns (raised: bool)
      requires Valid()
      modifies this`mode, this`driver, this`restarts, this`spec, this`heartbeat, this`applied, this`cmdPos, desk`ledger
      ensures Valid()
      ensures |desk.cmdFile| <= old(cmdPos) ==> !raised && cmdPos == old(cmdPos) && applied == old(applied) && Steering() == old(Steering())
      ensures old(UpToDate()) && EndsLine(desk.cmdFile[..old(cmdPos)]) && !raised ==> UpToDate()
      ensures |desk.cmdFile| > old(cmdPos) ==>
                var lines := Lines(desk.cmdFile[old(cmdPos)..]);
                && cmdPos == |desk.cmdFile|
                && (raised <==> Prefix(parse, lines) != lines)
                && applied == old(applied) + Commands(parse, Prefix(parse, lines))
                && Steering() == ApplyAll(old(Steering()), Commands(parse, Prefix(parse, lines)), hosted)
    {
      if |desk.cmdFile| <= cmdPos {
        return false;
      }
      var lines := Lines(desk.cmdFile[cmdPos..]);
      if EndsLine(desk.cmdFile[..cmdPos]) {
        ChunksCompose(parse, desk.cmdFile, cmdPos);
      }
      cmdPos := |desk.cmdFile|;
      raised := ApplyLines(lines);
      assert desk.cmdFile[..cmdPos] == desk.cmdFile;
    }

    /** Ends the shell's life: stop the driver, release the shell, stop the loop. */
    method Close()
      requires Core()
      modifies this`life, this`driver, this`stopping, desk`ledger
      ensures Valid() && life == Closed && stopping && driver == Halt(old(driver))
    {
      life := Closed;
      StopDriver();
      WriteLedger();
      stopping := true;
    }

    /** Takes over the work's own pace when it has a new one. */
    method FollowPace() returns (pace: Option<real>)
      requires Valid()
      modifies this`heartbeat, desk`ledger, desk`answers
      ensures Valid() && desk.answers == old(desk.answers) + [PaceRead(pace)]
      ensures heartbeat == if pace.Some? && pace.value > 0.0 then pace.value else old(heartbeat)
    {
      pace := *;
      desk.answers := desk.answers + [PaceRead(pace)];
      if pace.Some? && pace.value > 0.0 && pace.value != heartbeat {
        heartbeat := pace.value;
        WriteLedger();
      }
    }

    /** The autonomous half of a tick, in auto mode: redeliver, supervise the driver, pace, beat. */
    method ActAlone(now: real)
      requires Valid() && mode == Auto
      modifies this`pending, this`driver, this`restarts, this`heartbeat, this`lastTick, this`seqNo, this`wakes
      modifies desk`ledger, desk`typed, desk`history, desk`answers
      ensures Valid() && old(seqNo) <= seqNo <= old(seqNo) + 1 && old(desk.answers) <= desk.answers
      ensures hosted && old(driver) == Stopped ==> driver == Running && restarts == old(restarts) + 1
      ensures !hosted ==> driver == old(driver) && restarts == old(restarts)
      ensures now - old(lastTick) >= heartbeat <==> seqNo == old(seqNo) + 1
      ensures lastTick == if seqNo > old(seqNo) then now else old(lastTick)
    {
      Redeliver();
      SuperviseDriver();
      var pace := FollowPace();
      if now - lastTick >= heartbeat {
        lastTick := now;
        var made, delivered := OnEvent(Event("tick", "heartbeat"));
      }
    }

    /** In auto mode act alone, then close when the work has ended; otherwise nothing. */
    method AutoTick(now: real) returns (closed: bool)
      requires Valid()
      modifies this, desk`ledger, desk`typed, desk`history, desk`answers
      ensures Valid() && mode == old(mode) && cmdPos == old(cmdPos) && launched == old(launched) && old(desk.answers) <= desk.answers
      ensures mode == Auto ==>
                |old(desk.answers)| < |desk.answers| && desk.answers[|desk.answers| - 1] == WorkEnded(closed)
      ensures mode != Auto ==>
                !closed && desk.typed == old(desk.typed) && pending == old(pending) && seqNo == old(seqNo)
                && driver == old(driver) && restarts == old(restarts)
      ensures old(seqNo) <= seqNo <= old(seqNo) + 1
      ensures life == if closed then Closed else old(life)
      ensures closed ==> driver != Running
      ensures mode == Auto && !closed && hosted && old(driver) == Stopped ==> driver == Running && restarts == old(restarts) + 1
      ensures !closed && !hosted ==> driver == old(driver) && restarts == old(restarts)
    {
      if mode != Auto {
        return false;
      }
      ActAlone(now);
      closed := *;
      desk.answers := desk.answers + [WorkEnded(closed)];
      if closed {
        Close();
      }
    }

    /**
      One supervision step: drain commands, act in auto mode, close on terminal work, report a crash.
      The ledger mirrors memory afterwards, whatever happened, and nothing is typed while silenced.
      When no command has come in, a driver stopped because the shell crashed is armed again by the
      next tick exactly in auto mode with a driver to arm, unless that tick closes the shadow.
     */
    method Tick(now: real) returns (raised: bool, closed: bool)
      requires Valid()
      modifies this, desk`ledger, desk`typed, desk`history, desk`answers
      ensures Valid() && old(desk.answers) <= desk.answers && launched == old(launched)
      ensures raised <==>
                && |desk.cmdFile| > old(cmdPos)
                && var lines := Lines(desk.cmdFile[old(cmdPos)..]); Prefix(parse, lines) != lines
      ensures !raised && mode == Auto ==> WorkEnded(closed) in desk.answers[|old(desk.answers)|..]
      ensures raised || mode == Silenced ==> !closed
      ensures closed ==> life == Closed
      ensures !raised && !closed ==> CrashSeen(old(life), desk.answers[|old(desk.answers)|..])
      ensures mode == Silenced ==> desk.typed == old(desk.typed) && pending == old(pending) && seqNo == old(seqNo)
      ensures old(seqNo) <= seqNo <= old(seqNo) + 1
      ensures life != old(life) ==> life == Closed || (life == Crashed && old(life) != Closed)
      ensures life == Crashed && old(life) != Crashed ==> driver != Running
      ensures |desk.cmdFile| <= old(cmdPos) && old(driver) == Stopped && old(life) == Crashed == life ==>
                && (driver == Running <==> old(mode) == Auto && hosted)
                && restarts == old(restarts) + if driver == Running then 1 else 0
    {
      raised := DrainCmds();
      closed := false;
      if !raised {
        closed := Supervise(now);
      }
    }

    /** What a tick does after the commands. */
    method Supervise(now: real) returns (closed: bool)
      requires Valid()
      modifies this, desk`ledger, desk`typed, desk`history, desk`answers
      ensures Valid() && old(desk.answers) <= desk.answers && launched == old(launched) && mode == old(mode)
      ensures mode == Auto ==> WorkEnded(closed) in desk.answers[|old(desk.answers)|..]
      ensures mode == Silenced ==> !closed && desk.typed == old(desk.typed) && pending == old(pending) && seqNo == old(seqNo)
      ensures old(seqNo) <= seqNo <= old(seqNo) + 1
      ensures if closed then life == Closed else CrashSeen(old(life), desk.answers[|old(desk.answers)|..])
      ensures life == Crashed && old(life) != Crashed ==> driver != Running
      ensures old(driver) == Stopped && old(life) == Crashed == life ==>
                && (driver == Running <==> old(mode) == Auto && hosted)
                && restarts == old(restarts) + if driver == Running then 1 else 0
    {
      ghost var asked := desk.answers;
      closed := AutoTick(now);
      ghost var acted := desk.answers;
      if !closed {
        ReportCrash();
      }
      AnswersGrow(asked, acted, desk.answers);
    }

    /** Where the shell's life can still end in a crash, the last thing asked is whether it is alive, and it
        is called crashed exactly when it is not. */
    ghost predicate CrashSeen(was: Life, told: seq<Answer>)
      reads this
    {
      if was in {Life.Closed, Crashed} || !launched then life == was
      else told != [] && told[|told| - 1] == Alive(life != Crashed) && (life == was || life == Crashed)
    }

    /** A shell found dead for the first time: the driver is stopped and the crash is recorded. */
    method ReportCrash()
      requires Valid()
      modifies this`life, this`driver, desk`ledger, desk`answers
      ensures Valid()
      ensures life == old(life) ==> driver == old(driver)
      ensures life != old(life) ==> launched && life == Crashed && old(life) != Closed && driver == Halt(old(driver))
      ensures desk.answers == old(desk.answers) +
                if old(life) !in {Life.Closed, Crashed} && launched then [Alive(life != Crashed)] else []
    {
      if life != Closed && life != Crashed && launched {
        var alive := ShellAlive();
        if !alive {
          life := Crashed;
          StopDriver();
          WriteLedger();
        }
      }
    }
  }

  lemma {:induction false} AnswersGrow(a: seq<Answer>, b: seq<Answer>, c: seq<Answer>)
    requires a <= b <= c
    ensures forall x | x in b[|a|..] :: x in c[|a|..]
    ensures b < c ==> c[|a|..] != [] && c[|a|..][|c| - |a| - 1] == c[|c| - 1]
  {
    assert c[|a|..][..|b| - |a|] == b[|a|..];
  }

  /** Between two steps a successor can be attached: the ledger holds all that its numbering needs. */
  lemma {:induction false} StepBoundarySettles(s: ShellShadow)
    requires s.Valid()
    ensures s.desk.Settled()
  {
  }

  lemma {:induction false} ChunksCompose(parse: string -> Parsed, text: string, pos: nat)
    requires pos <= |text| && EndsLine(text[..pos])
    ensures Commands(parse, Lines(text)) == Commands(parse, Lines(text[..pos])) + Commands(parse, Lines(text[pos..]))
  {
    LinesConcat(text[..pos], text[pos..]);
    assert text[..pos] + text[pos..] == text;
    CommandsConcat(parse, Lines(text[..pos]), Lines(text[pos..]));
  }

  function Times<T>(x: T, n: nat): seq<T> {
    seq(n, _ => x)
  }

  /** None of the first `i` lines raises, and their commands are `cmds`. */
  predicate Batch(parse: string -> Parsed, lines: seq<string>, i: nat, cmds: seq<Cmd>) {
    i <= |lines| && Prefix(parse, lines[..i]) == lines[..i] && Commands(parse, lines[..i]) == cmds
  }

  lemma {:induction false} BatchStep(parse: string -> Parsed, lines: seq<string>, i: nat, cmds: seq<Cmd>)
    requires i < |lines| && Batch(parse, lines, i, cmds)
    ensures Stops(parse(lines[i])) ==> Prefix(parse, lines) != lines && Commands(parse, Prefix(parse, lines)) == cmds
    ensures !Stops(parse(lines[i])) ==>
              Batch(parse, lines, i + 1, if parse(lines[i]).Command? then cmds + [parse(lines[i]).cmd] else cmds)
  {
    NextLine(parse, lines, i);
  }

  /** Some frames have moved from the front of the queue to the console. */
  ghost predicate Moved(queue: seq<Frame>, typed: seq<Frame>, history: seq<Op>, pending: seq<Frame>, now: seq<Frame>, later: seq<Op>) {
    && |pending| <= |queue|
    && now + pending == typed + queue
    && later == history + Times(Redelivered, |queue| - |pending|)
  }

  lemma {:induction false} NoneMoved(queue: seq<Frame>, typed: seq<Frame>, history: seq<Op>)
    ensures Moved(queue, typed, history, queue, typed, history)
  {
    assert history + Times(Redelivered, 0) == history;
  }

  lemma {:induction false} OneMoved(queue: seq<Frame>, typed: seq<Frame>, history: seq<Op>, pending: seq<Frame>, now: seq<Frame>, later: seq<Op>)
    requires Moved(queue, typed, history, pending, now, later) && pending != []
    ensures Moved(queue, typed, history, pending[1..], now + [pending[0]], later + [Redelivered])
  {
    TimesSnoc(Redelivered, |queue| - |pending|);
    assert now + [pending[0]] + pending[1..] == now + pending;
  }

  lemma {:induction false} TimesSnoc<T>(x: T, n: nat)
    ensures Times(x, n + 1) == Times(x, n) + [x]
  {
  }

  function ApplyAll(c: Controls, cmds: seq<Cmd>, hosted: bool): Controls {
    if cmds == [] then c else Apply(ApplyAll(c, cmds[..|cmds| - 1], hosted), cmds[|cmds| - 1], hosted)
  }

  lemma {:induction false} ApplyAllSnoc(c: Controls, cmds: seq<Cmd>, cmd: Cmd, hosted: bool)
    ensures ApplyAll(c, cmds + [cmd], hosted) == Apply(ApplyAll(c, cmds, hosted), cmd, hosted)
  {
    assert (cmds + [cmd])[..|cmds|] == cmds;
  }

  /** The lines up to the first that raises. */
  function Prefix(parse: string -> Parsed, lines: seq<string>): seq<string> {
    if lines == [] || Stops(parse(lines[0])) then [] else [lines[0]] + Prefix(parse, lines[1..])
  }

  lemma {:induction false} PrefixAt(parse: string -> Parsed, lines: seq<string>, i: nat)
    requires i < |lines| && Prefix(parse, lines[..i]) == lines[..i]
    ensures if Stops(parse(lines[i])) then Prefix(parse, lines) == lines[..i]
            else Prefix(parse, lines[..i + 1]) == lines[..i + 1]
  {
    if i > 0 {
      assert lines[..i][1..] == lines[1..][..i - 1];
      assert lines[..i + 1][1..] == lines[1..][..i];
      PrefixAt(parse, lines[1..], i - 1);
      assert lines[..i] == [lines[0]] + lines[1..][..i - 1];
    } else {
      assert lines[..1][1..] == [];
    }
  }

  /** One more line: it stops the batch, is skipped, or adds its command. */
  lemma {:induction false} NextLine(parse: string -> Parsed, lines: seq<string>, i: nat)
    requires i < |lines| && Prefix(parse, lines[..i]) == lines[..i]
    ensures if Stops(parse(lines[i])) then Prefix(parse, lines) == lines[..i] && Prefix(parse, lines) != lines
            else Prefix(parse, lines[..i + 1]) == lines[..i + 1]
    ensures Commands(parse, lines[..i + 1]) ==
              if parse(lines[i]).Command? then Commands(parse, lines[..i]) + [parse(lines[i]).cmd] else Commands(parse, lines[..i])
  {
    PrefixAt(parse, lines, i);
    assert lines[..i + 1] == lines[..i] + [lines[i]];
    CommandsConcat(parse, lines[..i], [lines[i]]);
    assert [lines[i]][1..] == [] && Commands(parse, []) == [];
  }
}
