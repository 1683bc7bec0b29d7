/**
  Stacked spawner backends.  A composite sends each call to its second backend or to its primary one,
  and either may be a composite again; the lemmas say that the whole stack behaves as one list of
  leaves, second before primary, searched from the front.
 */
module CompositeSpawner {
  import opened Options

  type Session = nat

  /** A backend that starts processes itself. */
  datatype Leaf = Leaf(id: nat, harness: Option<string>)

  /** `roles` and `routed` are the roles and models that a launch sends to the second backend. */
  datatype Backend =
    | One(leaf: Leaf)
    | Composite(primary: Backend, second: Backend, roles: set<string>, routed: set<string>)

  /** Which leaf has launched which session. */
  type Fleet = set<(Leaf, Session)>

  datatype Error = LookupError

  // ---------------------------------------------------------------- the calls, as the stack makes them

  predicate Knows(b: Backend, fleet: Fleet, s: Session) {
    match b
    case One(leaf) => (leaf, s) in fleet
    case Composite(p, q, _, _) => Knows(p, fleet, s) || Knows(q, fleet, s)
  }

  /** `alive`, `kill`, `pid` and `last_output_ts`: forwarded to the owner of the session. */
  function Forward<T>(b: Backend, fleet: Fleet, s: Session, call: (Leaf, Session) -> T): T {
    match b
    case One(leaf) => call(leaf, s)
    case Composite(p, q, _, _) => if Knows(q, fleet, s) then Forward(q, fleet, s, call) else Forward(p, fleet, s, call)
  }

  function WithoutRepeats(hs: seq<string>): seq<string> {
    if hs == [] then []
    else
      var front := WithoutRepeats(hs[..|hs| - 1]);
      if hs[|hs| - 1] in front then front else front + [hs[|hs| - 1]]
  }

  function Harnesses(b: Backend): seq<string> {
    match b
    case One(leaf) => if leaf.harness.Some? && leaf.harness.value != "" then [leaf.harness.value] else []
    case Composite(p, q, _, _) => WithoutRepeats(Harnesses(p) + Harnesses(q))
  }

  function HarnessOf(b: Backend, fleet: Fleet, s: Session): Option<string> {
    match b
    case One(leaf) => leaf.harness
    case Composite(p, q, _, _) =>
      if Knows(q, fleet, s) then HarnessOf(q, fleet, s)
      else if Knows(p, fleet, s) then HarnessOf(p, fleet, s)
      else None
  }

  /** Where `launch` starts a session, by role and requested model. */
  function LaunchLeaf(b: Backend, role: string, model: Option<string>): Leaf {
    match b
    case One(leaf) => leaf
    case Composite(p, q, roles, routed) =>
      if role in roles || (model.Some? && model.value != "" && model.value in routed) then LaunchLeaf(q, role, model)
      else LaunchLeaf(p, role, model)
  }

  /** Where `launch_harness` starts a session. */
  function LaunchHarness(b: Backend, h: string): Result<Leaf, Error> {
    match b
    case One(leaf) => Ok(leaf)
    case Composite(p, q, _, _) =>
      if h in Harnesses(q) then LaunchHarness(q, h)
      else if h in Harnesses(p) then LaunchHarness(p, h)
      else Raised(LookupError)
  }

  /** `closed_session_base`, `closed_session_token` and `exit_code`: the first backend that has an answer. */
  function FirstAnswer<T>(b: Backend, ask: Leaf -> Option<T>): Option<T> {
    match b
    case One(leaf) => ask(leaf)
    case Composite(p, q, _, _) =>
      var hit := FirstAnswer(q, ask);
      if hit.Some? then hit else FirstAnswer(p, ask)
  }

  // ---------------------------------------------------------------- one list

  /** The leaves in the order they are asked. */
  function Leaves(b: Backend): (r: seq<Leaf>)
    ensures r != []
  {
    match b
    case One(leaf) => [leaf]
    case Composite(p, q, _, _) => Leaves(q) + Leaves(p)
  }

  function Last(b: Backend): (r: Leaf)
    ensures r == Leaves(b)[|Leaves(b)| - 1]
  {
    match b
    case One(leaf) => leaf
    case Composite(p, _, _, _) => Last(p)
  }

  /** The first position whose leaf satisfies `f`, or the length. */
  function First(ls: seq<Leaf>, f: Leaf -> bool): (i: nat)
    ensures i <= |ls| && (i < |ls| ==> f(ls[i]))
    ensures forall j | 0 <= j < i :: !f(ls[j])
  {
    if ls == [] || f(ls[0]) then 0 else 1 + First(ls[1..], f)
  }

  lemma {:induction false} FirstOfTwo(a: seq<Leaf>, b: seq<Leaf>, f: Leaf -> bool)
    ensures First(a + b, f) == if First(a, f) < |a| then First(a, f) else |a| + First(b, f)
  {
    if a == [] {
      assert a + b == b;
    } else {
      assert (a + b)[1..] == a[1..] + b;
      FirstOfTwo(a[1..], b, f);
    }
  }

  function Has(fleet: Fleet, s: Session): Leaf -> bool {
    (leaf: Leaf) => (leaf, s) in fleet
  }

  /** An empty harness name counts as none. */
  function Runs(h: string): Leaf -> bool {
    (leaf: Leaf) => leaf.harness == Some(h) && h != ""
  }

  /** The leaf a forwarded call reaches. */
  function Owner(b: Backend, fleet: Fleet, s: Session): Leaf {
    var i := First(Leaves(b), Has(fleet, s));
    if i < |Leaves(b)| then Leaves(b)[i] else Last(b)
  }

  lemma {:induction false} KnowsSome(b: Backend, fleet: Fleet, s: Session)
    ensures Knows(b, fleet, s) <==> First(Leaves(b), Has(fleet, s)) < |Leaves(b)|
    decreases b
  {
    match b
    case One(_) =>
    case Composite(p, q, _, _) =>
      KnowsSome(p, fleet, s);
      KnowsSome(q, fleet, s);
      FirstOfTwo(Leaves(q), Leaves(p), Has(fleet, s));
  }

  /** Every forwarded call reaches one and the same leaf: the first in the list that knows the session. */
  lemma {:induction false} ForwardReachesOwner<T>(b: Backend, fleet: Fleet, s: Session, call: (Leaf, Session) -> T)
    ensures Forward(b, fleet, s, call) == call(Owner(b, fleet, s), s)
    decreases b
  {
    match b
    case One(_) =>
    case Composite(p, q, _, _) =>
      KnowsSome(q, fleet, s);
      FirstOfTwo(Leaves(q), Leaves(p), Has(fleet, s));
      ForwardReachesOwner(p, fleet, s, call);
      ForwardReachesOwner(q, fleet, s, call);
  }

  /** The harness reported for a known session is its owner's; a composite that does not know it says None. */
  lemma {:induction false} HarnessOfOwner(b: Backend, fleet: Fleet, s: Session)
    ensures HarnessOf(b, fleet, s) ==
            if b.One? || Knows(b, fleet, s) then Owner(b, fleet, s).harness else None
    decreases b
  {
    match b
    case One(_) =>
    case Composite(p, q, _, _) =>
      KnowsSome(q, fleet, s);
      KnowsSome(p, fleet, s);
      FirstOfTwo(Leaves(q), Leaves(p), Has(fleet, s));
      HarnessOfOwner(p, fleet, s);
      HarnessOfOwner(q, fleet, s);
  }

  lemma {:induction false} WithoutRepeatsIs(hs: seq<string>)
    ensures forall h :: h in WithoutRepeats(hs) <==> h in hs
    ensures forall i, j | 0 <= i < j < |WithoutRepeats(hs)| :: WithoutRepeats(hs)[i] != WithoutRepeats(hs)[j]
  {
    if hs != [] {
      WithoutRepeatsIs(hs[..|hs| - 1]);
      assert hs == hs[..|hs| - 1] + [hs[|hs| - 1]];
    }
  }

  /** The harnesses a stack names are those of its leaves, each once. */
  lemma {:induction false} HarnessesAreTheLeaves(b: Backend, h: string)
    ensures h in Harnesses(b) <==> First(Leaves(b), Runs(h)) < |Leaves(b)|
    ensures forall i, j | 0 <= i < j < |Harnesses(b)| :: Harnesses(b)[i] != Harnesses(b)[j]
    decreases b
  {
    match b
    case One(_) =>
    case Composite(p, q, _, _) =>
      HarnessesAreTheLeaves(p, h);
      HarnessesAreTheLeaves(q, h);
      WithoutRepeatsIs(Harnesses(p) + Harnesses(q));
      FirstOfTwo(Leaves(q), Leaves(p), Runs(h));
  }

  /** A launch by harness lands on the first leaf with that harness, and fails exactly when none has it. */
  lemma {:induction false} LandsOnFirst(b: Backend, h: string)
    requires b.One? ==> Runs(h)(b.leaf)
    ensures var i := First(Leaves(b), Runs(h));
            LaunchHarness(b, h) == if i < |Leaves(b)| then Ok(Leaves(b)[i]) else Raised(LookupError)
    decreases b
  {
    match b
    case One(_) =>
    case Composite(p, q, _, _) =>
      HarnessesAreTheLeaves(p, h);
      HarnessesAreTheLeaves(q, h);
      FirstOfTwo(Leaves(q), Leaves(p), Runs(h));
      if h in Harnesses(q) {
        LandsOnFirst(q, h);
      } else if h in Harnesses(p) {
        LandsOnFirst(p, h);
      }
  }

  lemma {:induction false} LaunchedIsLeaf(b: Backend, role: string, model: Option<string>)
    ensures LaunchLeaf(b, role, model) in Leaves(b)
    decreases b
  {
    match b
    case One(_) =>
    case Composite(p, q, _, _) =>
      LaunchedIsLeaf(p, role, model);
      LaunchedIsLeaf(q, role, model);
  }

  /** With no leaf on both sides, a launch by role and model lands below the second backend if and only if
      the role, or the model that was asked for, is one of those it is there for; this holds of every
      composite in a stack. */
  lemma {:induction false} LaunchSideExactly(b: Backend, role: string, model: Option<string>)
    requires b.Composite? && forall leaf :: !(leaf in Leaves(b.primary) && leaf in Leaves(b.second))
    ensures LaunchLeaf(b, role, model) in Leaves(b.second) <==>
              role in b.roles || exists name | name in b.routed :: name != "" && model == Some(name)
    ensures LaunchLeaf(b, role, model) in Leaves(b.primary) <==>
              role !in b.roles && forall name | name in b.routed :: name == "" || model != Some(name)
  {
    LaunchedIsLeaf(b.primary, role, model);
    LaunchedIsLeaf(b.second, role, model);
  }

  /** A stack in which no composite is there for the role, when no model is asked for, launches on its
      innermost primary backend. */
  lemma {:induction false} PlainLaunchLandsLast(b: Backend, role: string)
    requires !SomeRole(b, role)
    ensures LaunchLeaf(b, role, None) == Leaves(b)[|Leaves(b)| - 1]
    decreases b
  {
    if b.Composite? {
      PlainLaunchLandsLast(b.primary, role);
    }
  }

  /** Some composite on the way down the primaries is there for the role. */
  predicate SomeRole(b: Backend, role: string) {
    b.Composite? && (role in b.roles || SomeRole(b.primary, role))
  }

  /** The first leaf, in the order asked, that has an answer gives it. */
  lemma {:induction false} FirstAnswerIs<T>(b: Backend, ask: Leaf -> Option<T>)
    ensures var i := First(Leaves(b), leaf => ask(leaf).Some?);
            FirstAnswer(b, ask) == if i < |Leaves(b)| then ask(Leaves(b)[i]) else None
    decreases b
  {
    match b
    case One(_) =>
    case Composite(p, q, _, _) =>
      FirstAnswerIs(p, ask);
      FirstAnswerIs(q, ask);
      FirstOfTwo(Leaves(q), Leaves(p), leaf => ask(leaf).Some?);
  }

  // ---------------------------------------------------------------- launch, then use

  /** After the leaf with first place `i` has launched a session, the stack reaches it exactly when no
      leaf asked before it knows the same id. */
  lemma {:induction false} LaunchedIsOwnerExactly(b: Backend, fleet: Fleet, s: Session, i: nat)
    requires i < |Leaves(b)| && forall j | 0 <= j < i :: Leaves(b)[j] != Leaves(b)[i]
    ensures Owner(b, fleet + {(Leaves(b)[i], s)}, s) == Leaves(b)[i] <==>
              forall j | 0 <= j < i :: (Leaves(b)[j], s) !in fleet
  {
    var ls, after := Leaves(b), fleet + {(Leaves(b)[i], s)};
    var k := First(ls, Has(after, s));
    assert Has(after, s)(ls[i]);
    if j :| 0 <= j < i && (ls[j], s) in fleet {
      assert Has(after, s)(ls[j]);
    }
  }

  predicate Fresh(b: Backend, fleet: Fleet, s: Session) {
    forall leaf | leaf in Leaves(b) :: (leaf, s) !in fleet
  }

  /** Main result, for a session id no leaf knows: launching by harness succeeds exactly when some leaf
      has it; then the stack reports that harness, and every forwarded call reaches the leaf launched on. */
  lemma {:induction false} LaunchThenUse<T>(b: Backend, fleet: Fleet, s: Session, h: string, call: (Leaf, Session) -> T)
    requires b.Composite? && Fresh(b, fleet, s)
    ensures LaunchHarness(b, h).Ok? <==> h != "" && exists leaf :: leaf in Leaves(b) && leaf.harness == Some(h)
    ensures LaunchHarness(b, h).Ok? ==>
              var leaf := LaunchHarness(b, h).value;
              var after := fleet + {(leaf, s)};
              && leaf in Leaves(b) && leaf.harness == Some(h)
              && Knows(b, after, s) && HarnessOf(b, after, s) == Some(h)
              && Forward(b, after, s, call) == call(leaf, s)
  {
    LandsOnFirst(b, h);
    var i := First(Leaves(b), Runs(h));
    if i < |Leaves(b)| {
      var leaf := Leaves(b)[i];
      LaunchedThenUse(b, fleet, s, i, call);
      assert leaf.harness == Some(h);
    } else {
      forall leaf | leaf in Leaves(b) ensures leaf.harness != Some(h) || h == "" {
        assert !Runs(h)(leaf);
      }
    }
  }

  /** The same for a launch by role and model: whatever leaf it picks is the one all later calls reach. */
  lemma {:induction false} LaunchByRoleThenUse<T>(b: Backend, fleet: Fleet, s: Session, role: string, model: Option<string>, call: (Leaf, Session) -> T)
    requires b.Composite? && Fresh(b, fleet, s)
    ensures var leaf := LaunchLeaf(b, role, model);
            var after := fleet + {(leaf, s)};
            Knows(b, after, s) && HarnessOf(b, after, s) == leaf.harness && Forward(b, after, s, call) == call(leaf, s)
  {
    LaunchedIsLeaf(b, role, model);
    var i :| 0 <= i < |Leaves(b)| && Leaves(b)[i] == LaunchLeaf(b, role, model);
    LaunchedThenUse(b, fleet, s, i, call);
  }

  lemma {:induction false} LaunchedThenUse<T>(b: Backend, fleet: Fleet, s: Session, i: nat, call: (Leaf, Session) -> T)
    requires i < |Leaves(b)| && Fresh(b, fleet, s)
    ensures var after := fleet + {(Leaves(b)[i], s)};
            && Knows(b, after, s) && HarnessOf(b, after, s) == Leaves(b)[i].harness
            && Forward(b, after, s, call) == call(Leaves(b)[i], s)
  {
    var after := fleet + {(Leaves(b)[i], s)};
    var k := First(Leaves(b), Has(after, s));
    assert k < |Leaves(b)| ==> Leaves(b)[k] in Leaves(b);
    KnowsSome(b, after, s);
    assert Has(after, s)(Leaves(b)[i]);
    ForwardReachesOwner(b, after, s, call);
    HarnessOfOwner(b, after, s);
  }
}
