/**
  The pause protocol for one target pid: the pool's `suspend_tree`/`resume_tree` calls, the
  out-of-tree watchdogs, and the run-token file they share.  The pool may crash between any two
  steps.  Each label is one action on the shared state, so reading the token and acting on what
  was read are different steps, exactly as in the code.

  The code is safe only under rules about its surroundings.  They are switches here:
  `AlwaysWatchedExactly` proves that four of them are exactly what it takes to keep every freeze
  watched, and `NeverThawsLaterExactly` that the fifth is what keeps watchdogs off later freezes.
 */
module PauseProtocol {
  import opened Options

  /** Freezes are numbered in the order their tokens are written; the number stands for the run's uuid. */
  type RunId = nat

  /** Where the pool is inside a call on this pid. */
  datatype Pool =
    | Idle
    | Dead                                              // crashed; a restart brings it back Idle
    | Adopting                                          // the tree read frozen; the token is read next
    | Issuing(sweep: bool)                              // about to write the token
    | Launching(r: RunId, deadline: nat, sweep: bool)   // token written, watchdog not launched yet
    | Sweeping(r: RunId, deadline: nat, i: nat)         // suspending process i, root first
    | RollingBack(r: RunId, k: nat)                     // undoing; processes below k remain
    | Unfreezing(k: nat)                                // resume_tree; processes below k remain
    | Disarming(want: Option<RunId>)                    // disarm is about to read the token
    | Unlinking                                         // disarm has read it and will unlink

  /** Where one watchdog is. */
  datatype Watchdog =
    | Waiting(deadline: nat)
    | Decided                                           // read its own id at the deadline: it will fire
    | Resuming(k: nat)                                  // firing; processes below k remain
    | Releasing                                         // resumed; disarm reads the token next
    | Removing                                          // disarm has read its own id and will unlink
    | Done

  /** `counts[i]` is the suspend count of process i of the tree; process 0 is the root.
      `owner` records the freeze that last raised a count. */
  datatype State = State(
    counts: seq<nat>,
    token: Option<RunId>,
    dogs: map<RunId, Watchdog>,
    issued: nat,
    owner: nat,
    clock: nat,
    rootAlive: bool,
    pool: Pool)

  datatype Label =
    | Tick
    | RootDies
    | Crash
    | Restart
    | BeginSuspend
    | CheckToken
    | IssueToken(delay: nat)
    | Launch(ok: bool)
    | SuspendOne(reached: bool)
    | Verify(seen: bool)
    | BeginResume
    | ResumeOne
    | Settle
    | ReadToken
    | Unlink
    | Dog(r: RunId)

  /** The rules the surroundings may or may not respect. */
  datatype Rules = Rules(
    calmUnlinks: bool,  // no token is written while a watchdog has read its own id in disarm and will unlink
    calmThaws: bool,    // no token is written while a watchdog has decided to fire and may still resume
    cleanStart: bool,   // no suspend starts on a tree that reads mixed
    timely: bool,       // no deadline passes before the suspend it belongs to has verified
    rootStays: bool)    // the root outlives the freeze

  /** The rules that keep every freeze watched. */
  predicate Safe(rules: Rules) {
    rules.calmUnlinks && rules.cleanStart && rules.timely && rules.rootStays
  }

  predicate Suspended(s: State) {
    exists i | 0 <= i < |s.counts| :: s.counts[i] > 0
  }

  predicate Frozen(s: State) {
    forall i | 0 <= i < |s.counts| :: s.counts[i] > 0
  }

  /** Past its deadline and not finished. */
  predicate InWindow(d: Watchdog) {
    Firing(d) || d.Releasing? || d.Removing?
  }

  predicate Firing(d: Watchdog) {
    d.Decided? || d.Resuming?
  }

  predicate Initial(s: State) {
    && |s.counts| > 0
    && !Suspended(s)
    && s.token == None
    && s.dogs == map[]
    && s.issued == s.owner == 0
    && s.rootAlive
    && s.pool == Idle
  }

  function Bump(counts: seq<nat>, i: nat): seq<nat>
    requires i < |counts|
  {
    counts[i := counts[i] + 1]
  }

  /** Resuming a thread that is not suspended is a no-op. */
  function Drop(counts: seq<nat>, i: nat): seq<nat>
    requires i < |counts|
  {
    counts[i := if counts[i] == 0 then 0 else counts[i] - 1]
  }

  /** Can this step happen in this state? */
  predicate Enabled(s: State, l: Label) {
    match l
    case Tick => true
    case RootDies => s.rootAlive
    case Crash => s.pool != Dead
    case Restart => s.pool == Dead
    case BeginSuspend => s.pool == Idle
    case CheckToken => s.pool.Adopting?
    case IssueToken(_) => s.pool.Issuing?
    case Launch(_) => s.pool.Launching?
    case SuspendOne(_) => s.pool.Sweeping? && s.pool.i < |s.counts|
    case Verify(seen) => s.pool.Sweeping? && s.pool.i >= |s.counts| && (seen ==> Frozen(s))
    case BeginResume => s.pool == Idle
    case ResumeOne => (s.pool.RollingBack? || s.pool.Unfreezing?) && 0 < s.pool.k <= |s.counts|
    case Settle => (s.pool.RollingBack? || s.pool.Unfreezing?) && s.pool.k == 0
    case ReadToken => s.pool.Disarming?
    case Unlink => s.pool.Unlinking?
    case Dog(r) => r in s.dogs && s.dogs[r] != Done && (s.dogs[r].Resuming? ==> s.dogs[r].k <= |s.counts|)
  }

  /** Do the rules in force admit this step? */
  predicate Admits(rules: Rules, s: State, l: Label) {
    && (rules.calmUnlinks && l.IssueToken? ==> forall r | r in s.dogs :: !s.dogs[r].Removing?)
    && (rules.calmThaws && l.IssueToken? ==> forall r | r in s.dogs :: !Firing(s.dogs[r]))
    && (rules.cleanStart && l.BeginSuspend? ==> Frozen(s) || !Suspended(s))
    && (rules.timely && l.IssueToken? && s.pool.Issuing? && s.pool.sweep ==> l.delay > 0)
    && (rules.timely && l.Tick? && s.pool.Launching? && s.pool.sweep ==> s.clock + 1 < s.pool.deadline)
    && (rules.timely && l.Tick? && s.pool.Sweeping? ==> s.clock + 1 < s.pool.deadline)
    && (rules.rootStays ==> !l.RootDies?)
  }

  function Next(s: State, l: Label): (t: State)
    requires Enabled(s, l)
    ensures |t.counts| == |s.counts|
  {
    match l
    case Tick => s.(clock := s.clock + 1)
    case RootDies => s.(rootAlive := false)
    case Crash => s.(pool := Dead)
    case Restart => s.(pool := Idle)
    case Dog(r) => DogStep(s, r)
    case _ => PoolStep(s, l)
  }

  function PoolStep(s: State, l: Label): (t: State)
    requires Enabled(s, l)
    requires !l.Tick? && !l.RootDies? && !l.Crash? && !l.Restart? && !l.Dog?
    ensures |t.counts| == |s.counts|
  {
    match l
    case BeginSuspend =>
      if !s.rootAlive then s                                     // fingerprint refused
      else if Frozen(s) then s.(pool := Adopting)
      else s.(pool := Issuing(true))
    case CheckToken =>
      s.(pool := if s.token.Some? then Idle else Issuing(false))
    case IssueToken(delay) =>
      var r := s.issued + 1;
      s.(token := Some(r), issued := r, pool := Launching(r, s.clock + delay, s.pool.sweep))
    case Launch(ok) =>
      var r := s.pool.r;
      if !ok then s.(pool := Disarming(Some(r)))
      else s.(dogs := s.dogs[r := Waiting(s.pool.deadline)],
              pool := if s.pool.sweep then Sweeping(r, s.pool.deadline, 0) else Idle)
    case SuspendOne(reached) =>
      var i := s.pool.i;
      var t := s.(pool := s.pool.(i := i + 1));
      if reached then t.(counts := Bump(s.counts, i), owner := s.pool.r) else t
    case Verify(seen) =>
      s.(pool := if seen then Idle else RollingBack(s.pool.r, |s.counts|))
    case BeginResume =>
      s.(pool := if s.rootAlive then Unfreezing(|s.counts|) else Disarming(None))
    case ResumeOne =>
      var k := s.pool.k;
      s.(counts := Drop(s.counts, k - 1), pool := s.pool.(k := k - 1))
    case Settle =>
      s.(pool := if s.pool.RollingBack? then Disarming(Some(s.pool.r))
                 else if Frozen(s) then Idle                     // refused: still frozen
                 else Disarming(None))
    case ReadToken =>
      s.(pool := if s.token == None || (s.pool.want.Some? && s.pool.want != s.token) then Idle else Unlinking)
    case Unlink =>
      s.(token := None, pool := Idle)
  }

  function DogStep(s: State, r: RunId): (t: State)
    requires Enabled(s, Dog(r))
    ensures |t.counts| == |s.counts|
  {
    match s.dogs[r]
    case Waiting(deadline) =>
      if s.token != Some(r) then SetDog(s, r, Done)
      else if s.clock < deadline then s
      else SetDog(s, r, Decided)
    case Decided =>
      SetDog(s, r, if s.rootAlive then Resuming(|s.counts|) else Releasing)
    case Resuming(k) =>
      if k > 0 then SetDog(s.(counts := Drop(s.counts, k - 1)), r, Resuming(k - 1))
      else SetDog(s, r, if Frozen(s) then Done else Releasing)
    case Releasing =>
      SetDog(s, r, if s.token == Some(r) then Removing else Done)
    case Removing =>
      SetDog(s.(token := None), r, Done)
    case Done => s
  }

  function SetDog(s: State, r: RunId, d: Watchdog): State {
    s.(dogs := s.dogs[r := d])
  }

  /** The labels can be taken one after another from `s`, within the rules. */
  predicate Possible(rules: Rules, s: State, ls: seq<Label>)
    decreases |ls|
  {
    |ls| > 0 ==>
      && Enabled(s, ls[0])
      && Admits(rules, s, ls[0])
      && Possible(rules, Next(s, ls[0]), ls[1..])
  }

  /** The state those labels lead to. */
  function After(rules: Rules, s: State, ls: seq<Label>): State
    requires Possible(rules, s, ls)
    decreases |ls|
  {
    if |ls| == 0 then s else After(rules, Next(s, ls[0]), ls[1..])
  }

  /** A freeze of a living tree has a token naming a watchdog that is waiting or firing. */
  predicate Watched(s: State) {
    Suspended(s) ==>
      && s.token.Some?
      && s.token.value in s.dogs
      && (s.dogs[s.token.value].Waiting? || s.dogs[s.token.value].Decided? || s.dogs[s.token.value].Resuming?)
  }

  ghost predicate AlwaysWatched(rules: Rules) {
    forall s, ls | Initial(s) && Possible(rules, s, ls) :: Watched(After(rules, s, ls))
  }

  // ---------------------------------------------------------------- the inductive invariant

  predicate ZeroFrom(counts: seq<nat>, k: nat) {
    forall j | k <= j < |counts| :: counts[j] == 0
  }

  predicate Numbered(s: State) {
    && (s.token.Some? ==> s.token.value == s.issued)
    && (forall r | r in s.dogs :: r <= s.issued)
    && (s.pool.Launching? ==> s.pool.r == s.issued && s.issued !in s.dogs)
    && (s.pool.Sweeping? ==> s.pool.r == s.issued && s.issued in s.dogs)
  }

  /** What each watchdog's position says about the token and the counts.  One that was armed for an
      earlier freeze may still lower counts, but it finds a token that is not its own. */
  predicate DogOk(s: State, r: RunId, d: Watchdog) {
    && (d.Removing? ==> r == s.issued)
    && (d.Resuming? ==> d.k <= |s.counts|)
    && (r == s.issued ==>
          && (InWindow(d) ==> !s.pool.Launching? && !s.pool.Sweeping?)
          && (d.Resuming? ==> ZeroFrom(s.counts, d.k))
          && (d.Releasing? || d.Removing? ==> !Suspended(s)))
  }

  /** What the pool's position says about the counts and its own watchdog. */
  predicate PoolOk(s: State) {
    match s.pool
    case Issuing(_) => !Suspended(s)
    case Launching(r, deadline, sweep) => !Suspended(s) && s.token == Some(r) && (sweep ==> s.clock < deadline)
    case Sweeping(r, deadline, i) =>
      && i <= |s.counts| && ZeroFrom(s.counts, i)
      && s.token == Some(r) && s.clock < deadline
      && r in s.dogs && s.dogs[r] == Waiting(deadline)
    case RollingBack(_, k) => k <= |s.counts| && ZeroFrom(s.counts, k)
    case Unfreezing(k) => k <= |s.counts| && ZeroFrom(s.counts, k)
    case Disarming(_) => !Suspended(s)
    case Unlinking => !Suspended(s)
    case _ => true
  }

  predicate Inv(s: State) {
    && |s.counts| > 0
    && (forall i | 0 <= i < |s.counts| :: s.counts[i] <= 1)
    && s.rootAlive
    && Numbered(s)
    && Watched(s)
    && PoolOk(s)
    && (forall r | r in s.dogs :: DogOk(s, r, s.dogs[r]))
  }

  lemma {:induction false} PoolStepKeepsInv(rules: Rules, s: State, l: Label)
    requires Safe(rules) && Inv(s) && Enabled(s, l) && Admits(rules, s, l)
    requires !l.Tick? && !l.RootDies? && !l.Crash? && !l.Restart? && !l.Dog?
    ensures Inv(PoolStep(s, l))
  {
    var t := PoolStep(s, l);
    if l.SuspendOne? && l.reached {
      assert t.counts[s.pool.i] == 1;
    }
    if l.Launch? && l.ok {
      assert t.dogs[s.pool.r] == Waiting(s.pool.deadline);
    }
  }

  /** A watchdog that lowers a count. */
  lemma {:induction false} DogResumesKeepsInv(s: State, r: RunId)
    requires Inv(s) && Enabled(s, Dog(r)) && s.dogs[r].Resuming? && s.dogs[r].k > 0
    ensures Inv(DogStep(s, r))
  {
    var t, k := DogStep(s, r), s.dogs[r].k;
    assert t.counts == s.counts[k - 1 := 0] by {
      assert s.counts[k - 1] <= 1;
    }
    assert t.token == s.token && t.pool == s.pool;
    forall o | o in t.dogs ensures DogOk(t, o, t.dogs[o]) {
      assert DogOk(s, o, s.dogs[o]);
    }
  }

  /** A watchdog that moves without touching a count. */
  lemma {:induction false} DogMovesKeepsInv(s: State, r: RunId)
    requires Inv(s) && Enabled(s, Dog(r)) && !(s.dogs[r].Resuming? && s.dogs[r].k > 0)
    ensures Inv(DogStep(s, r))
  {
    var t := DogStep(s, r);
    assert t.counts == s.counts && t.pool == s.pool;
    assert DogOk(s, r, s.dogs[r]);
    forall o | o in t.dogs ensures DogOk(t, o, t.dogs[o]) {
      assert DogOk(s, o, s.dogs[o]);
    }
  }

  lemma {:induction false} DogStepKeepsInv(s: State, r: RunId)
    requires Inv(s) && Enabled(s, Dog(r))
    ensures Inv(DogStep(s, r))
  {
    if s.dogs[r].Resuming? && s.dogs[r].k > 0 {
      DogResumesKeepsInv(s, r);
    } else {
      DogMovesKeepsInv(s, r);
    }
  }

  lemma {:induction false} StepKeepsInv(rules: Rules, s: State, l: Label)
    requires Safe(rules) && Inv(s) && Enabled(s, l) && Admits(rules, s, l)
    ensures Inv(Next(s, l))
  {
    if l.Dog? {
      DogStepKeepsInv(s, l.r);
    } else if !l.Tick? && !l.RootDies? && !l.Crash? && !l.Restart? {
      PoolStepKeepsInv(rules, s, l);
    }
  }

  lemma {:induction false} RunKeepsInv(rules: Rules, s: State, ls: seq<Label>)
    requires Safe(rules) && Inv(s) && Possible(rules, s, ls)
    ensures Inv(After(rules, s, ls))
    decreases |ls|
  {
    if |ls| > 0 {
      StepKeepsInv(rules, s, ls[0]);
      RunKeepsInv(rules, Next(s, ls[0]), ls[1..]);
    }
  }

  // ---------------------------------------------------------------- each rule is needed

  /** One more step at the end of a run. */
  lemma {:induction false} Then(rules: Rules, s0: State, ls: seq<Label>, s: State, l: Label) returns (more: seq<Label>, t: State)
    requires Possible(rules, s0, ls) && After(rules, s0, ls) == s
    requires Enabled(s, l) && Admits(rules, s, l)
    ensures more == ls + [l] && t == Next(s, l)
    ensures Possible(rules, s0, more) && After(rules, s0, more) == t
    decreases |ls|
  {
    more, t := ls + [l], Next(s, l);
    if |ls| == 0 {
      assert more == [l] && more[1..] == [];
    } else {
      var rest, _ := Then(rules, Next(s0, ls[0]), ls[1..], s, l);
      assert more[0] == ls[0] && more[1..] == rest;
    }
  }

  function Fresh(n: nat): (s: State)
    requires n > 0
    ensures Initial(s)
  {
    State(seq(n, _ => 0), None, map[], 0, 0, 0, true, Idle)
  }

  /** A suspend call up to the start of its sweep. */
  lemma {:induction false} StartSweep(rules: Rules, s0: State, ls: seq<Label>, s: State, delay: nat) returns (more: seq<Label>, t: State)
    requires Possible(rules, s0, ls) && After(rules, s0, ls) == s
    requires s.pool == Idle && s.rootAlive && !Frozen(s)
    requires rules.cleanStart ==> !Suspended(s)
    requires rules.timely ==> delay > 0
    requires rules.calmUnlinks ==> forall r | r in s.dogs :: !s.dogs[r].Removing?
    requires rules.calmThaws ==> forall r | r in s.dogs :: !Firing(s.dogs[r])
    ensures Possible(rules, s0, more) && After(rules, s0, more) == t
    ensures var r, deadline := s.issued + 1, s.clock + delay;
            t == s.(token := Some(r), issued := r, dogs := s.dogs[r := Waiting(deadline)], pool := Sweeping(r, deadline, 0))
  {
    more, t := Then(rules, s0, ls, s, BeginSuspend);
    more, t := Then(rules, s0, more, t, IssueToken(delay));
    more, t := Then(rules, s0, more, t, Launch(true));
  }

  /** A sweep over a tree of two processes. */
  lemma {:induction false} SweepTwo(rules: Rules, s0: State, ls: seq<Label>, s: State) returns (more: seq<Label>, t: State)
    requires Possible(rules, s0, ls) && After(rules, s0, ls) == s
    requires s.pool.Sweeping? && s.pool.i == 0 && |s.counts| == 2
    ensures Possible(rules, s0, more) && After(rules, s0, more) == t
    ensures t == s.(counts := [s.counts[0] + 1, s.counts[1] + 1], owner := s.pool.r, pool := Idle)
  {
    more, t := Then(rules, s0, ls, s, SuspendOne(true));
    more, t := Then(rules, s0, more, t, SuspendOne(true));
    assert t.counts == [s.counts[0] + 1, s.counts[1] + 1];
    more, t := Then(rules, s0, more, t, Verify(true));
  }

  /** A whole suspend call on a tree of one process, up to its verified end. */
  lemma {:induction false} FreezeOne(rules: Rules, s0: State, ls: seq<Label>, s: State, delay: nat) returns (more: seq<Label>, t: State)
    requires Possible(rules, s0, ls) && After(rules, s0, ls) == s
    requires s.pool == Idle && s.rootAlive && s.counts == [0] && delay > 0
    requires forall r | r in s.dogs :: r <= s.issued
    requires rules.calmUnlinks ==> forall r | r in s.dogs :: !s.dogs[r].Removing?
    requires rules.calmThaws ==> forall r | r in s.dogs :: !Firing(s.dogs[r])
    ensures Possible(rules, s0, more) && After(rules, s0, more) == t
    ensures var r := s.issued + 1;
            t == s.(counts := [1], token := Some(r), issued := r, owner := r, dogs := s.dogs[r := Waiting(s.clock + delay)])
  {
    assert s.counts[0] == 0;
    more, t := StartSweep(rules, s0, ls, s, delay);
    more, t := Then(rules, s0, more, t, SuspendOne(true));
    assert t.counts == [1];
    more, t := Then(rules, s0, more, t, Verify(true));
  }

  /** A watchdog past its deadline decides to fire. */
  lemma {:induction false} DecideOne(rules: Rules, s0: State, ls: seq<Label>, s: State, r: RunId) returns (more: seq<Label>, t: State)
    requires Possible(rules, s0, ls) && After(rules, s0, ls) == s
    requires s.rootAlive && s.token == Some(r)
    requires r in s.dogs && s.dogs[r].Waiting? && s.dogs[r].deadline <= s.clock
    ensures Possible(rules, s0, more) && After(rules, s0, more) == t
    ensures t == s.(dogs := s.dogs[r := Resuming(|s.counts|)])
  {
    more, t := Then(rules, s0, ls, s, Dog(r));
    more, t := Then(rules, s0, more, t, Dog(r));
    assert t.dogs == s.dogs[r := Resuming(|s.counts|)];
  }

  /** A watchdog past its deadline fires on a tree of one process, up to the unlink of its token. */
  lemma {:induction false} FireOne(rules: Rules, s0: State, ls: seq<Label>, s: State, r: RunId) returns (more: seq<Label>, t: State)
    requires Possible(rules, s0, ls) && After(rules, s0, ls) == s
    requires |s.counts| == 1 && s.counts[0] <= 1 && s.rootAlive && s.token == Some(r)
    requires r in s.dogs && s.dogs[r].Waiting? && s.dogs[r].deadline <= s.clock
    ensures Possible(rules, s0, more) && After(rules, s0, more) == t
    ensures t == s.(counts := [0], dogs := s.dogs[r := Removing])
  {
    more, t := DecideOne(rules, s0, ls, s, r);
    more, t := Then(rules, s0, more, t, Dog(r));
    assert t.counts == [0] && t.counts[0] == 0;
    more, t := Then(rules, s0, more, t, Dog(r));
    more, t := Then(rules, s0, more, t, Dog(r));
    assert t.dogs == s.dogs[r := Removing];
  }

  /** The end of a resume call that has resumed: the token is read and unlinked. */
  lemma {:induction false} ReleaseToken(rules: Rules, s0: State, ls: seq<Label>, s: State) returns (more: seq<Label>, t: State)
    requires Possible(rules, s0, ls) && After(rules, s0, ls) == s
    requires s.pool == Unfreezing(0) && !Frozen(s) && s.token.Some?
    ensures Possible(rules, s0, more) && After(rules, s0, more) == t
    ensures t == s.(token := None, pool := Idle)
  {
    more, t := Then(rules, s0, ls, s, Settle);
    more, t := Then(rules, s0, more, t, ReadToken);
    more, t := Then(rules, s0, more, t, Unlink);
  }

  /** The same, and the unlink. */
  lemma {:induction false} FireAndUnlink(rules: Rules, s0: State, ls: seq<Label>, s: State, r: RunId) returns (more: seq<Label>, t: State)
    requires Possible(rules, s0, ls) && After(rules, s0, ls) == s
    requires |s.counts| == 1 && s.counts[0] <= 1 && s.rootAlive && s.token == Some(r)
    requires r in s.dogs && s.dogs[r].Waiting? && s.dogs[r].deadline <= s.clock
    ensures Possible(rules, s0, more) && After(rules, s0, more) == t
    ensures t == s.(counts := [0], token := None, dogs := s.dogs[r := Done])
  {
    more, t := FireOne(rules, s0, ls, s, r);
    more, t := Then(rules, s0, more, t, Dog(r));
    assert t.dogs == s.dogs[r := Done];
  }

  /** A whole resume call on a frozen tree of one process. */
  lemma {:induction false} ThawOne(rules: Rules, s0: State, ls: seq<Label>, s: State) returns (more: seq<Label>, t: State)
    requires Possible(rules, s0, ls) && After(rules, s0, ls) == s
    requires s.pool == Idle && s.counts == [1] && s.rootAlive && s.token.Some?
    ensures Possible(rules, s0, more) && After(rules, s0, more) == t
    ensures t == s.(counts := [0], token := None)
  {
    more, t := Then(rules, s0, ls, s, BeginResume);
    more, t := Then(rules, s0, more, t, ResumeOne);
    assert t.counts == [0] && t.counts[0] == 0;
    more, t := ReleaseToken(rules, s0, more, t);
  }

  /** A resume call that finds one process of two suspended once too often. */
  lemma {:induction false} ResumeTwo(rules: Rules, s0: State, ls: seq<Label>, s: State) returns (more: seq<Label>, t: State)
    requires Possible(rules, s0, ls) && After(rules, s0, ls) == s
    requires s.pool == Idle && s.counts == [2, 1] && s.rootAlive && s.token.Some?
    ensures Possible(rules, s0, more) && After(rules, s0, more) == t
    ensures t == s.(counts := [1, 0], token := None)
  {
    more, t := Then(rules, s0, ls, s, BeginResume);
    more, t := Then(rules, s0, more, t, ResumeOne);
    more, t := Then(rules, s0, more, t, ResumeOne);
    assert t.counts == [1, 0] && t.counts[1] == 0;
    more, t := ReleaseToken(rules, s0, more, t);
  }

  /** A watchdog past its deadline finds the root gone and releases its token. */
  lemma {:induction false} ReleaseUnresumed(rules: Rules, s0: State, ls: seq<Label>, s: State, r: RunId) returns (more: seq<Label>, t: State)
    requires Possible(rules, s0, ls) && After(rules, s0, ls) == s
    requires !s.rootAlive && s.token == Some(r)
    requires r in s.dogs && s.dogs[r].Waiting? && s.dogs[r].deadline <= s.clock
    ensures Possible(rules, s0, more) && After(rules, s0, more) == t
    ensures t == s.(token := None, dogs := s.dogs[r := Done])
  {
    more, t := Then(rules, s0, ls, s, Dog(r));
    more, t := Then(rules, s0, more, t, Dog(r));
    more, t := Then(rules, s0, more, t, Dog(r));
    more, t := Then(rules, s0, more, t, Dog(r));
    assert t.dogs == s.dogs[r := Done];
  }

  /** Without `calmUnlinks`, watchdog 1 reads its own id in `disarm`, freeze 2 writes its token and
      freezes the tree, and watchdog 1 unlinks freeze 2's token: a freeze that nothing watches. */
  lemma {:induction false} CalmUnlinksNeeded() returns (s0: State, ls: seq<Label>)
    ensures Initial(s0) && Possible(Rules(false, true, true, true, true), s0, ls)
    ensures var s := After(Rules(false, true, true, true, true), s0, ls);
            s.pool == Idle && Frozen(s) && s.token == None && !Watched(s)
  {
    var rules := Rules(false, true, true, true, true);
    s0, ls := Fresh(1), [];
    var s := s0;
    assert s.counts == [0];
    ls, s := FreezeOne(rules, s0, ls, s, 1);
    ls, s := Then(rules, s0, ls, s, Tick);
    ls, s := FireOne(rules, s0, ls, s, 1);
    ls, s := FreezeOne(rules, s0, ls, s, 1);
    ls, s := Then(rules, s0, ls, s, Dog(1));
    assert s.counts[0] == 1;
  }

  /** The pool dies after the first of two processes and is started again. */
  lemma {:induction false} DieHalfWay(rules: Rules, s0: State, ls: seq<Label>, s: State, delay: nat) returns (more: seq<Label>, t: State)
    requires Possible(rules, s0, ls) && After(rules, s0, ls) == s
    requires s.pool == Idle && s.rootAlive && s.counts == [0, 0] && s.dogs == map[] && delay > 0
    ensures Possible(rules, s0, more) && After(rules, s0, more) == t
    ensures var r := s.issued + 1;
            t == s.(counts := [1, 0], token := Some(r), issued := r, owner := r, dogs := map[r := Waiting(s.clock + delay)])
  {
    assert s.counts[0] == 0 == s.counts[1];
    more, t := StartSweep(rules, s0, ls, s, delay);
    more, t := Then(rules, s0, more, t, SuspendOne(true));
    assert t.counts == [1, 0];
    more, t := Then(rules, s0, more, t, Crash);
    more, t := Then(rules, s0, more, t, Restart);
  }

  /** Without `cleanStart`, the pool dies half way through a sweep, the restarted pool suspends the
      mixed tree once more, and one resume leaves a process suspended while the token is released. */
  lemma {:induction false} CleanStartNeeded() returns (s0: State, ls: seq<Label>)
    ensures Initial(s0) && Possible(Rules(true, true, false, true, true), s0, ls)
    ensures var s := After(Rules(true, true, false, true, true), s0, ls);
            s.pool == Idle && Suspended(s) && s.token == None && !Watched(s)
  {
    var rules := Rules(true, true, false, true, true);
    s0, ls := Fresh(2), [];
    var s := s0;
    assert s.counts[0] == 0;
    ls, s := DieHalfWay(rules, s0, ls, s, 9);
    assert s.counts[1] == 0;
    ls, s := StartSweep(rules, s0, ls, s, 9);
    ls, s := SweepTwo(rules, s0, ls, s);
    assert s.counts == [2, 1];
    ls, s := ResumeTwo(rules, s0, ls, s);
    assert s.counts[0] == 1;
  }

  /** Without `timely`, the watchdog fires and releases the token in the middle of the sweep; the
      sweep goes on and the pool dies. */
  lemma {:induction false} TimelyNeeded() returns (s0: State, ls: seq<Label>)
    ensures Initial(s0) && Possible(Rules(true, true, true, false, true), s0, ls)
    ensures var s := After(Rules(true, true, true, false, true), s0, ls);
            s.pool == Dead && Suspended(s) && s.token == None && !Watched(s)
  {
    var rules := Rules(true, true, true, false, true);
    s0, ls := Fresh(1), [];
    var s := s0;
    assert s.counts[0] == 0;
    ls, s := StartSweep(rules, s0, ls, s, 0);
    ls, s := FireAndUnlink(rules, s0, ls, s, 1);
    ls, s := Then(rules, s0, ls, s, SuspendOne(true));
    assert s.counts == [1];
    ls, s := Then(rules, s0, ls, s, Crash);
    assert s.counts[0] == 1;
  }

  /** Without `rootStays`, the fingerprint check fails, so the watchdog releases the token without
      resuming the descendants. */
  lemma {:induction false} RootStaysNeeded() returns (s0: State, ls: seq<Label>)
    ensures Initial(s0) && Possible(Rules(true, true, true, true, false), s0, ls)
    ensures var s := After(Rules(true, true, true, true, false), s0, ls);
            s.counts == [1, 1] && s.token == None && !Watched(s)
  {
    var rules := Rules(true, true, true, true, false);
    s0, ls := Fresh(2), [];
    var s := s0;
    assert s.counts[0] == 0;
    ls, s := StartSweep(rules, s0, ls, s, 1);
    ls, s := SweepTwo(rules, s0, ls, s);
    ls, s := Then(rules, s0, ls, s, RootDies);
    ls, s := Then(rules, s0, ls, s, Tick);
    ls, s := ReleaseUnresumed(rules, s0, ls, s, 1);
    assert s.counts[0] == 1;
  }

  /** Fewer rules admit more runs. */
  lemma {:induction false} WeakerRulesAdmitMore(strong: Rules, weak: Rules, s: State, ls: seq<Label>)
    requires weak.calmUnlinks ==> strong.calmUnlinks
    requires weak.calmThaws ==> strong.calmThaws
    requires weak.cleanStart ==> strong.cleanStart
    requires weak.timely ==> strong.timely
    requires weak.rootStays ==> strong.rootStays
    requires Possible(strong, s, ls)
    ensures Possible(weak, s, ls) && After(weak, s, ls) == After(strong, s, ls)
    decreases |ls|
  {
    if |ls| > 0 {
      WeakerRulesAdmitMore(strong, weak, Next(s, ls[0]), ls[1..]);
    }
  }

  /** Main result: a living frozen tree is watched in every reachable state if and only if the four
      rules of `Safe` hold, whether or not watchdogs thaw later freezes. */
  lemma {:induction false} AlwaysWatchedExactly(rules: Rules)
    ensures AlwaysWatched(rules) <==> Safe(rules)
  {
    if Safe(rules) {
      forall s, ls | Initial(s) && Possible(rules, s, ls) ensures Watched(After(rules, s, ls)) {
        RunKeepsInv(rules, s, ls);
      }
    } else {
      var s0, ls, strong;
      if !rules.calmUnlinks {
        s0, ls := CalmUnlinksNeeded();
        strong := Rules(false, true, true, true, true);
      } else if !rules.cleanStart {
        s0, ls := CleanStartNeeded();
        strong := Rules(true, true, false, true, true);
      } else if !rules.timely {
        s0, ls := TimelyNeeded();
        strong := Rules(true, true, true, false, true);
      } else {
        s0, ls := RootStaysNeeded();
        strong := Rules(true, true, true, true, false);
      }
      WeakerRulesAdmitMore(strong, rules, s0, ls);
      assert !Watched(After(rules, s0, ls));
    }
  }

  // ---------------------------------------------------------------- what the calls do

  /** Nothing holds a token write back. */
  predicate Calm(s: State) {
    forall r | r in s.dogs :: !InWindow(s.dogs[r])
  }

  function Ones(n: nat): (r: seq<nat>)
    ensures |r| == n && forall i | 0 <= i < n :: r[i] == 1
  {
    seq(n, _ => 1)
  }

  /** Each count lowered once, where there is one. */
  function Lowered(counts: seq<nat>): (r: seq<nat>)
    ensures |r| == |counts| && forall i | 0 <= i < |r| :: r[i] == if counts[i] == 0 then 0 else counts[i] - 1
  {
    seq(|counts|, i requires 0 <= i < |counts| => if counts[i] == 0 then 0 else counts[i] - 1)
  }

  lemma {:induction false} SweepRest(rules: Rules, s0: State, ls: seq<Label>, s: State) returns (more: seq<Label>, t: State)
    requires Possible(rules, s0, ls) && After(rules, s0, ls) == s
    requires s.pool.Sweeping? && s.pool.i < |s.counts|
    requires forall j | 0 <= j < |s.counts| :: s.counts[j] == if j < s.pool.i then 1 else 0
    ensures Possible(rules, s0, more) && After(rules, s0, more) == t
    ensures t == s.(counts := Ones(|s.counts|), owner := s.pool.r, pool := Idle)
    decreases |s.counts| - s.pool.i
  {
    more, t := Then(rules, s0, ls, s, SuspendOne(true));
    if t.pool.i < |t.counts| {
      more, t := SweepRest(rules, s0, more, t);
    } else {
      assert t.counts == Ones(|s.counts|);
      more, t := Then(rules, s0, more, t, Verify(true));
    }
  }

  /** A suspend call on a running tree, with nothing in its way: every process is suspended once, under a
      new token that names a waiting watchdog. */
  lemma {:induction false} SuspendCall(rules: Rules, s0: State, ls: seq<Label>, s: State, delay: nat) returns (more: seq<Label>, t: State)
    requires Possible(rules, s0, ls) && After(rules, s0, ls) == s
    requires s.pool == Idle && s.rootAlive && |s.counts| > 0 && !Suspended(s) && Calm(s) && delay > 0
    ensures Possible(rules, s0, more) && After(rules, s0, more) == t && Frozen(t) && Watched(t)
    ensures var r := s.issued + 1;
            t == s.(counts := Ones(|s.counts|), token := Some(r), issued := r, owner := r, dogs := s.dogs[r := Waiting(s.clock + delay)])
  {
    assert s.counts[0] == 0;
    more, t := StartSweep(rules, s0, ls, s, delay);
    more, t := SweepRest(rules, s0, more, t);
  }

  /** A suspend call on a frozen tree with no token adopts the freeze: it writes a token that names a
      waiting watchdog and signals nothing. */
  lemma {:induction false} AdoptCall(rules: Rules, s0: State, ls: seq<Label>, s: State, delay: nat) returns (more: seq<Label>, t: State)
    requires Possible(rules, s0, ls) && After(rules, s0, ls) == s
    requires s.pool == Idle && s.rootAlive && Frozen(s) && s.token == None && Calm(s)
    ensures Possible(rules, s0, more) && After(rules, s0, more) == t && Watched(t)
    ensures var r := s.issued + 1;
            t == s.(token := Some(r), issued := r, dogs := s.dogs[r := Waiting(s.clock + delay)])
  {
    more, t := Then(rules, s0, ls, s, BeginSuspend);
    more, t := Then(rules, s0, more, t, CheckToken);
    more, t := Then(rules, s0, more, t, IssueToken(delay));
    more, t := Then(rules, s0, more, t, Launch(true));
  }

  /** With a token it does nothing. */
  lemma {:induction false} KeepCall(rules: Rules, s0: State, ls: seq<Label>, s: State) returns (more: seq<Label>)
    requires Possible(rules, s0, ls) && After(rules, s0, ls) == s
    requires s.pool == Idle && s.rootAlive && Frozen(s) && s.token.Some?
    ensures Possible(rules, s0, more) && After(rules, s0, more) == s && more == ls + [BeginSuspend, CheckToken]
  {
    var t;
    more, t := Then(rules, s0, ls, s, BeginSuspend);
    more, t := Then(rules, s0, more, t, CheckToken);
    assert ls + [BeginSuspend] + [CheckToken] == ls + [BeginSuspend, CheckToken];
  }

  lemma {:induction false} ResumeRest(rules: Rules, s0: State, ls: seq<Label>, s: State, was: seq<nat>) returns (more: seq<Label>, t: State)
    requires Possible(rules, s0, ls) && After(rules, s0, ls) == s
    requires s.pool.Unfreezing? && s.pool.k <= |s.counts| == |was|
    requires forall j | 0 <= j < |was| :: s.counts[j] == if j < s.pool.k then was[j] else Lowered(was)[j]
    ensures Possible(rules, s0, more) && After(rules, s0, more) == t
    ensures t == s.(counts := Lowered(was), pool := Unfreezing(0))
    decreases s.pool.k
  {
    if s.pool.k == 0 {
      assert s.counts == Lowered(was);
      more, t := ls, s;
    } else {
      more, t := Then(rules, s0, ls, s, ResumeOne);
      more, t := ResumeRest(rules, s0, more, t, was);
    }
  }

  /** A resume call on a living root, whatever the counts: each is lowered once, and the token goes unless
      the tree still reads frozen. */
  lemma {:induction false} ResumeCall(rules: Rules, s0: State, ls: seq<Label>, s: State) returns (more: seq<Label>, t: State)
    requires Possible(rules, s0, ls) && After(rules, s0, ls) == s && s.pool == Idle && s.rootAlive
    ensures Possible(rules, s0, more) && After(rules, s0, more) == t
    ensures t == s.(counts := Lowered(s.counts), token := if Frozen(t) then s.token else None)
  {
    more, t := Then(rules, s0, ls, s, BeginResume);
    more, t := ResumeRest(rules, s0, more, t, s.counts);
    more, t := Then(rules, s0, more, t, Settle);
    if t.pool.Disarming? {
      more, t := Then(rules, s0, more, t, ReadToken);
      if t.pool.Unlinking? {
        more, t := Then(rules, s0, more, t, Unlink);
      }
    }
  }

  /** A suspend call whose watchdog cannot be launched signals nothing and takes its token back. */
  lemma {:induction false} UnwatchableCall(rules: Rules, s0: State, ls: seq<Label>, s: State, delay: nat) returns (more: seq<Label>, t: State)
    requires Possible(rules, s0, ls) && After(rules, s0, ls) == s
    requires s.pool == Idle && s.rootAlive && |s.counts| > 0 && !Suspended(s) && Calm(s) && delay > 0
    ensures Possible(rules, s0, more) && After(rules, s0, more) == t
    ensures t == s.(token := None, issued := s.issued + 1)
  {
    assert s.counts[0] == 0;
    more, t := Then(rules, s0, ls, s, BeginSuspend);
    more, t := Then(rules, s0, more, t, IssueToken(delay));
    more, t := Then(rules, s0, more, t, Launch(false));
    more, t := ReleaseMine(rules, s0, more, t);
  }

  /** `disarm` of the run whose token it is. */
  lemma {:induction false} ReleaseMine(rules: Rules, s0: State, ls: seq<Label>, s: State) returns (more: seq<Label>, t: State)
    requires Possible(rules, s0, ls) && After(rules, s0, ls) == s
    requires s.pool.Disarming? && s.token.Some? && s.pool.want == s.token
    ensures Possible(rules, s0, more) && After(rules, s0, more) == t
    ensures t == s.(token := None, pool := Idle)
  {
    more, t := Then(rules, s0, ls, s, ReadToken);
    more, t := Then(rules, s0, more, t, Unlink);
  }

  lemma {:induction false} RollBackRest(rules: Rules, s0: State, ls: seq<Label>, s: State) returns (more: seq<Label>, t: State)
    requires Possible(rules, s0, ls) && After(rules, s0, ls) == s
    requires s.pool.RollingBack? && s.pool.k <= |s.counts|
    requires forall j | 0 <= j < |s.counts| :: s.counts[j] == if j < s.pool.k then 1 else 0
    ensures Possible(rules, s0, more) && After(rules, s0, more) == t
    ensures t == s.(counts := Lowered(Ones(|s.counts|)), pool := RollingBack(s.pool.r, 0))
    decreases s.pool.k
  {
    if s.pool.k == 0 {
      assert s.counts == Lowered(Ones(|s.counts|));
      more, t := ls, s;
    } else {
      more, t := Then(rules, s0, ls, s, ResumeOne);
      more, t := RollBackRest(rules, s0, more, t);
    }
  }

  /** A sweep that does not measure frozen is undone: everything it suspended runs again, and its token is
      gone. */
  lemma {:induction false} RollBackCall(rules: Rules, s0: State, ls: seq<Label>, s: State) returns (more: seq<Label>, t: State)
    requires Possible(rules, s0, ls) && After(rules, s0, ls) == s
    requires s.pool.Sweeping? && s.pool.i == |s.counts| && s.counts == Ones(|s.counts|) && s.token == Some(s.pool.r)
    ensures Possible(rules, s0, more) && After(rules, s0, more) == t
    ensures t == s.(counts := Lowered(Ones(|s.counts|)), token := None, pool := Idle)
  {
    more, t := Then(rules, s0, ls, s, Verify(false));
    more, t := RollBackRest(rules, s0, more, t);
    more, t := Then(rules, s0, more, t, Settle);
    more, t := ReleaseMine(rules, s0, more, t);
  }

  /** The two calls one after the other, with nothing in their way, undo each other. */
  lemma {:induction false} SuspendThenResumeCall(rules: Rules, s0: State, ls: seq<Label>, s: State, delay: nat) returns (more: seq<Label>, t: State)
    requires Possible(rules, s0, ls) && After(rules, s0, ls) == s
    requires s.pool == Idle && s.rootAlive && |s.counts| > 0 && !Suspended(s) && Calm(s) && delay > 0
    ensures Possible(rules, s0, more) && After(rules, s0, more) == t
    ensures t.counts == s.counts && t.token == None && t.pool == Idle && !Suspended(t)
  {
    more, t := SuspendCall(rules, s0, ls, s, delay);
    more, t := ResumeCall(rules, s0, more, t);
    assert t.counts == s.counts by {
      assert forall j | 0 <= j < |s.counts| :: s.counts[j] == 0;
    }
    assert t.counts[0] == 0;
  }

  // ---------------------------------------------------------------- a late watchdog and a later freeze

  /** This step is watchdog `r` really lowering a suspend count. */
  predicate Thaws(s: State, l: Label) {
    && l.Dog? && Enabled(s, l)
    && s.dogs[l.r].Resuming? && s.dogs[l.r].k > 0
    && s.counts[s.dogs[l.r].k - 1] > 0
  }

  /** No watchdog ever thaws a freeze that began after its own. */
  ghost predicate NeverThawsLater(rules: Rules) {
    forall s, ls, l | Initial(s) && Possible(rules, s, ls) && Thaws(After(rules, s, ls), l) ::
      After(rules, s, ls).owner <= l.r
  }

  predicate OwnerInv(s: State) {
    && s.owner <= s.issued
    && (s.token.Some? ==> s.token.value == s.issued)
    && (s.pool.Launching? || s.pool.Sweeping? ==> s.pool.r == s.issued)
    && (forall r | r in s.dogs :: Firing(s.dogs[r]) ==> r == s.issued)
  }

  lemma {:induction false} DogStepKeepsOwnerInv(s: State, r: RunId)
    requires OwnerInv(s) && Enabled(s, Dog(r))
    ensures OwnerInv(DogStep(s, r))
  {
    var t := DogStep(s, r);
    assert t.owner == s.owner && t.issued == s.issued && t.pool == s.pool;
    assert Firing(t.dogs[r]) ==> Firing(s.dogs[r]) || s.token == Some(r);
    assert forall o | o in t.dogs && o != r :: t.dogs[o] == s.dogs[o];
  }

  lemma {:induction false} PoolStepKeepsOwnerInv(rules: Rules, s: State, l: Label)
    requires rules.calmThaws && OwnerInv(s) && Enabled(s, l) && Admits(rules, s, l)
    requires !l.Tick? && !l.RootDies? && !l.Crash? && !l.Restart? && !l.Dog?
    ensures OwnerInv(PoolStep(s, l))
  {
    var t := PoolStep(s, l);
    assert l.IssueToken? ==> forall r | r in s.dogs :: !Firing(s.dogs[r]);
    assert forall r | r in t.dogs && Firing(t.dogs[r]) :: r in s.dogs && t.dogs[r] == s.dogs[r];
  }

  lemma {:induction false} RunKeepsOwnerInv(rules: Rules, s: State, ls: seq<Label>)
    requires rules.calmThaws && OwnerInv(s) && Possible(rules, s, ls)
    ensures OwnerInv(After(rules, s, ls))
    decreases |ls|
  {
    if |ls| > 0 {
      var l := ls[0];
      if l.Dog? {
        DogStepKeepsOwnerInv(s, l.r);
      } else if !l.Tick? && !l.RootDies? && !l.Crash? && !l.Restart? {
        PoolStepKeepsOwnerInv(rules, s, l);
      }
      RunKeepsOwnerInv(rules, Next(s, ls[0]), ls[1..]);
    }
  }

  /** Without `calmThaws`, watchdog 1 decides to fire, freeze 2 takes over, and watchdog 1 thaws it. */
  lemma {:induction false} LateThaw() returns (s0: State, ls: seq<Label>)
    ensures Initial(s0) && Possible(Rules(true, false, true, true, true), s0, ls)
    ensures var s := After(Rules(true, false, true, true, true), s0, ls);
            Thaws(s, Dog(1)) && s.owner == 2
  {
    var rules := Rules(true, false, true, true, true);
    s0, ls := Fresh(1), [];
    var s := s0;
    assert s.counts == [0];
    ls, s := FreezeOne(rules, s0, ls, s, 1);
    ls, s := Then(rules, s0, ls, s, Tick);
    ls, s := DecideOne(rules, s0, ls, s, 1);
    ls, s := ThawOne(rules, s0, ls, s);
    ls, s := FreezeOne(rules, s0, ls, s, 1);
  }

  /** Main result: watchdogs leave later freezes alone if and only if no token is written while one
      of them has decided to fire and may still resume, whatever the other rules. */
  lemma {:induction false} NeverThawsLaterExactly(rules: Rules)
    ensures NeverThawsLater(rules) <==> rules.calmThaws
  {
    if rules.calmThaws {
      forall s, ls, l | Initial(s) && Possible(rules, s, ls) && Thaws(After(rules, s, ls), l)
        ensures After(rules, s, ls).owner <= l.r
      {
        RunKeepsOwnerInv(rules, s, ls);
      }
    } else {
      var s0, ls := LateThaw();
      WeakerRulesAdmitMore(Rules(true, false, true, true, true), rules, s0, ls);
      assert Thaws(After(rules, s0, ls), Dog(1));
    }
  }

  // ---------------------------------------------------------------- every freeze ends

  /** Steps still to come before the freeze is over: time to the deadline, then watchdog steps. */
  function Budget(s: State): nat
    requires Inv(s)
  {
    if !Suspended(s) then 0
    else
      var d := s.dogs[s.token.value];
      if d.Waiting? then (if s.clock < d.deadline then d.deadline - s.clock else 0) + |s.counts| + 2
      else if d.Decided? then |s.counts| + 1
      else d.k
  }

  /** Time passing before the deadline, or the responsible watchdog moving at or after it. */
  predicate Progress(s: State, l: Label) {
    && Suspended(s) && s.token.Some? && s.token.value in s.dogs
    && var d := s.dogs[s.token.value];
       if d.Waiting? && s.clock < d.deadline then l == Tick else l == Dog(s.token.value)
  }

  function ProgressSteps(rules: Rules, s: State, ls: seq<Label>): nat
    requires Possible(rules, s, ls)
    decreases |ls|
  {
    if |ls| == 0 then 0
    else (if Progress(s, ls[0]) then 1 else 0) + ProgressSteps(rules, Next(s, ls[0]), ls[1..])
  }

  /** The pool is gone for good: only the clock and the watchdogs move. */
  predicate NoPool(ls: seq<Label>) {
    forall i | 0 <= i < |ls| :: ls[i].Tick? || ls[i].Dog?
  }

  lemma {:induction false} BudgetStep(rules: Rules, s: State, l: Label)
    requires Safe(rules) && Inv(s) && s.pool == Dead && Enabled(s, l) && Admits(rules, s, l) && (l.Tick? || l.Dog?)
    ensures Inv(Next(s, l)) && Next(s, l).pool == Dead
    ensures Budget(Next(s, l)) + (if Progress(s, l) then 1 else 0) <= Budget(s)
  {
    StepKeepsInv(rules, s, l);
  }

  /** While the tree is frozen, a step that makes progress is always possible. */
  lemma {:induction false} ProgressPossible(s: State)
    requires Inv(s) && s.pool == Dead && Suspended(s)
    ensures exists l | Enabled(s, l) :: Progress(s, l)
  {
    var r := s.token.value;
    var d := s.dogs[r];
    if d.Waiting? && s.clock < d.deadline {
      assert Enabled(s, Tick) && Progress(s, Tick);
    } else {
      assert Enabled(s, Dog(r)) && Progress(s, Dog(r));
    }
  }

  lemma {:induction false} BudgetRun(rules: Rules, s: State, ls: seq<Label>)
    requires Safe(rules) && Inv(s) && s.pool == Dead && NoPool(ls) && Possible(rules, s, ls)
    ensures var t := After(rules, s, ls);
            Inv(t) && t.pool == Dead && Budget(t) + ProgressSteps(rules, s, ls) <= Budget(s)
    decreases |ls|
  {
    if |ls| > 0 {
      BudgetStep(rules, s, ls[0]);
      BudgetRun(rules, Next(s, ls[0]), ls[1..]);
    }
  }

  /** Main result: let the pool die at any point of any run.  Whatever the watchdogs and the clock
      do next, once `Budget` progress steps have been taken nothing is suspended any more. */
  lemma {:induction false} EveryFreezeEnds(rules: Rules, s0: State, before: seq<Label>, after: seq<Label>)
    requires Safe(rules) && Initial(s0) && Possible(rules, s0, before)
    requires After(rules, s0, before).pool == Dead
    requires NoPool(after) && Possible(rules, After(rules, s0, before), after)
    ensures var s := After(rules, s0, before);
            Inv(s) &&
            (ProgressSteps(rules, s, after) >= Budget(s) ==> !Suspended(After(rules, s, after)))
  {
    RunKeepsInv(rules, s0, before);
    var s := After(rules, s0, before);
    BudgetRun(rules, s, after);
  }
}
