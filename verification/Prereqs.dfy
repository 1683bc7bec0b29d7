/**
  The install planner and runner: which tools a machine lacks, in which order they are installed, what
  is left for a person to do, and what happens to a tool whose dependency did not install.  The plan is
  stated over sets in `PlanOf`; `Plan` builds it with the lists and insertions of the code.
 */
module Prereqs {
  import opened Options

  datatype Name = Name(text: string)

  datatype Need = Required | Harness | Optional | Default

  datatype State = Good | Missing | Outdated | Off

  datatype Os = Win32 | Darwin | Linux | OtherOs

  datatype Manager = Winget | Brew | Apt | Npm | Script | Pip | Model | Url

  datatype Recipe = Recipe(manager: Manager, arg: string)

  datatype Kind = Cli | Module | Cached

  /** `probed`: its version is asked for; `least`: the oldest version that will do. */
  datatype Check = Check(kind: Kind, probed: bool, least: Option<Version>)

  datatype Prereq = Prereq(name: Name, need: Need, check: Check, needs: seq<Name>, install: map<Os, seq<Recipe>>, docs: string)

  type Manifest = seq<Prereq>

  /** What the planner asks of a machine: the tools found on it, whether this is the packaged app, and
      whether the user is root. */
  datatype Machine = Machine(os: Os, tools: set<string>, bundled: bool, root: bool)

  datatype Status = Status(name: Name, need: Need, state: State)

  datatype Request = Request(only: seq<Name>, optional: seq<Name>, embed: bool)

  datatype Step = Step(name: Name, recipe: Recipe)

  datatype Plan = Plan(steps: seq<Step>, left: seq<Status>)

  datatype Error = KeyError

  const UV := Name("uv")
  const CLAUDE := Name("claude")       // the default harness

  // ---------------------------------------------------------------- versions

  type Version = seq<nat>

  function Padded(v: Version, n: nat): (r: Version)
    ensures |r| == if |v| < n then n else |v|
  {
    if |v| < n then v + seq(n - |v|, _ => 0) else v
  }

  /** Lexicographic comparison, as of tuples. */
  predicate NotLess(a: Version, b: Version) {
    b == [] || (a != [] && (a[0] > b[0] || (a[0] == b[0] && NotLess(a[1..], b[1..]))))
  }

  predicate AtLeast(have: Version, want: Version) {
    var n := if |have| < |want| then |want| else |have|;
    NotLess(Padded(have, n), Padded(want, n))
  }

  /** A component that is not written is zero. */
  function Digit(v: Version, i: nat): nat {
    if i < |v| then v[i] else 0
  }

  /** At component `i` for the first time they differ, and `b` is the greater. */
  ghost predicate OlderAt(a: Version, b: Version, i: nat) {
    Digit(a, i) < Digit(b, i) && forall j: nat | j < i :: Digit(a, j) == Digit(b, j)
  }

  ghost predicate Older(a: Version, b: Version) {
    exists i: nat :: OlderAt(a, b, i)
  }

  lemma {:induction false} OlderTail(a: Version, b: Version)
    requires a != [] && b != [] && a[0] == b[0]
    ensures Older(a, b) <==> Older(a[1..], b[1..])
  {
    if Older(a, b) {
      var i: nat :| OlderAt(a, b, i);
      assert i != 0;
      forall j: nat | j < i - 1 ensures Digit(a[1..], j) == Digit(b[1..], j) {
        assert Digit(a, j + 1) == Digit(b, j + 1);
      }
      assert OlderAt(a[1..], b[1..], i - 1);
    }
    if Older(a[1..], b[1..]) {
      var i: nat :| OlderAt(a[1..], b[1..], i);
      forall j: nat | j < i + 1 ensures Digit(a, j) == Digit(b, j) {
        assert j > 0 ==> Digit(a[1..], j - 1) == Digit(b[1..], j - 1);
      }
      assert OlderAt(a, b, i + 1);
    }
  }

  lemma {:induction false} NotLessIs(a: Version, b: Version)
    requires |a| == |b|
    ensures NotLess(a, b) <==> !Older(a, b)
  {
    if a == [] {
      assert forall i: nat :: Digit(a, i) == Digit(b, i);
    } else if a[0] == b[0] {
      OlderTail(a, b);
      NotLessIs(a[1..], b[1..]);
    } else if a[0] < b[0] {
      assert OlderAt(a, b, 0);
    } else {
      forall i: nat ensures !OlderAt(a, b, i) {
        assert i > 0 ==> Digit(a, 0) != Digit(b, 0);
      }
    }
  }

  /** A version will do exactly when it is not older, component by component, whatever zeros are left out. */
  lemma {:induction false} AtLeastIs(have: Version, want: Version)
    ensures AtLeast(have, want) <==> !Older(have, want)
  {
    var n := if |have| < |want| then |want| else |have|;
    var a, b := Padded(have, n), Padded(want, n);
    NotLessIs(a, b);
    assert forall i: nat :: Digit(a, i) == Digit(have, i) && Digit(b, i) == Digit(want, i);
    assert forall i: nat :: OlderAt(a, b, i) <==> OlderAt(have, want, i);
  }

  // ---------------------------------------------------------------- the manifest

  function ByName(m: Manifest, n: Name): (r: Option<Prereq>)
    ensures r.Some? ==> r.value in m && r.value.name == n
    ensures r == None <==> forall p | p in m :: p.name != n
  {
    if m == [] then None else if m[0].name == n then Some(m[0]) else ByName(m[1..], n)
  }

  predicate Known(m: Manifest, n: Name) {
    ByName(m, n).Some?
  }

  function NeedOf(p: Prereq, mc: Machine): Need {
    if p.name == UV && mc.bundled then Optional else p.need
  }

  predicate Distinct(m: Manifest) {
    forall i, j | 0 <= i < j < |m| :: m[i].name != m[j].name
  }

  /** Distinct names, the default harness among them, and dependencies that come earlier and have none of their own. */
  predicate GoodManifest(m: Manifest) {
    && Distinct(m)
    && (exists i | 0 <= i < |m| :: m[i].name == CLAUDE && m[i].need == Harness)
    && (forall i | 0 <= i < |m| :: forall d | d in m[i].needs :: exists j | 0 <= j < i :: m[j].name == d && m[j].needs == [])
  }

  function Everywhere(r: Recipe): map<Os, seq<Recipe>> {
    map[Win32 := [r], Darwin := [r], Linux := [r]]
  }

  const MANIFEST: Manifest := [
    Prereq(UV, Required, Check(Cli, true, Some([0, 9])), [],
           map[Win32 := [Recipe(Winget, "astral-sh.uv")], Darwin := [Recipe(Brew, "uv")],
               Linux := [Recipe(Script, "https://astral.sh/uv/install.sh")]],
           "https://docs.astral.sh/uv/getting-started/installation/"),
    Prereq(Name("git"), Required, Check(Cli, true, Some([2, 30])), [],
           map[Win32 := [Recipe(Winget, "Git.Git")], Darwin := [Recipe(Brew, "git")], Linux := [Recipe(Apt, "git")]],
           "https://git-scm.com/downloads"),
    Prereq(Name("node"), Required, Check(Cli, true, Some([20])), [],
           map[Win32 := [Recipe(Winget, "OpenJS.NodeJS.LTS")], Darwin := [Recipe(Brew, "node")],
               Linux := [Recipe(Apt, "nodejs npm"), Recipe(Url, "https://nodejs.org/en/download")]],
           "https://nodejs.org/en/download"),
    Prereq(CLAUDE, Harness, Check(Cli, true, Some([1, 0])), [],
           map[Win32 := [Recipe(Winget, "Anthropic.ClaudeCode")], Darwin := [Recipe(Brew, "--cask claude-code")],
               Linux := [Recipe(Script, "https://claude.ai/install.sh")]],
           "https://code.claude.com/docs/en/setup"),
    Prereq(Name("codex"), Harness, Check(Cli, true, None), [Name("node")], Everywhere(Recipe(Npm, "@openai/codex")),
           "https://github.com/openai/codex#installation"),
    Prereq(Name("pi"), Optional, Check(Cli, false, None), [Name("node")], Everywhere(Recipe(Npm, "@earendil-works/pi-coding-agent")),
           "https://www.npmjs.com/package/@earendil-works/pi-coding-agent"),
    Prereq(Name("tailscale"), Optional, Check(Cli, true, None), [],
           map[Win32 := [Recipe(Winget, "Tailscale.Tailscale")], Darwin := [Recipe(Brew, "--cask tailscale")],
               Linux := [Recipe(Script, "https://tailscale.com/install.sh")]],
           "https://tailscale.com/download"),
    Prereq(Name("embedder"), Default, Check(Module, true, Some([0, 3])), [], Everywhere(Recipe(Pip, "fastembed>=0.3")),
           "https://github.com/qdrant/fastembed"),
    Prereq(Name("embedding model"), Default, Check(Cached, true, None), [Name("embedder")], Everywhere(Recipe(Model, "")),
           "https://huggingface.co/nomic-ai/nomic-embed-text-v1.5")]

  /** The shipped names and dependencies, row by row. */
  lemma {:induction false} ShippedRows()
    ensures |MANIFEST| == 9
    ensures forall i | 0 <= i < 9 :: |MANIFEST[i].name.text| == [2, 3, 4, 6, 5, 2, 9, 8, 15][i]
    ensures MANIFEST[0].name.text[0] == 'u' && MANIFEST[5].name.text[0] == 'p'
    ensures MANIFEST[2].name == Name("node") && MANIFEST[3].name == CLAUDE && MANIFEST[7].name == Name("embedder")
    ensures MANIFEST[3].need == Harness
    ensures MANIFEST[4].needs == [Name("node")] == MANIFEST[5].needs && MANIFEST[8].needs == [Name("embedder")]
    ensures forall i | 0 <= i < 9 && i != 4 && i != 5 && i != 8 :: MANIFEST[i].needs == []
  {
  }

  lemma {:induction false} ShippedNamesDiffer(i: nat, j: nat)
    requires i < j < |MANIFEST|
    ensures MANIFEST[i].name != MANIFEST[j].name
  {
    ShippedRows();
    assert |MANIFEST[i].name.text| != |MANIFEST[j].name.text| || (i == 0 && j == 5);
  }

  /** The shipped manifest has the shape the planner relies on. */
  lemma {:induction false} ShippedManifestIsGood()
    ensures GoodManifest(MANIFEST)
  {
    ShippedRows();
    forall i, j | 0 <= i < j < |MANIFEST| ensures MANIFEST[i].name != MANIFEST[j].name {
      ShippedNamesDiffer(i, j);
    }
    forall i, d | 0 <= i < |MANIFEST| && d in MANIFEST[i].needs
      ensures exists j | 0 <= j < i :: MANIFEST[j].name == d && MANIFEST[j].needs == []
    {
      var j := if i == 8 then 7 else 2;
      assert MANIFEST[j].name == d && MANIFEST[j].needs == [];
    }
  }

  // ---------------------------------------------------------------- recipes

  predicate ManagerAvailable(manager: Manager, mc: Machine) {
    match manager
    case Pip => !mc.bundled
    case Model => true
    case Url => true
    case Npm => true                  // npm arrives with node, which may be planned
    case Apt => (mc.os == Linux && !mc.root ==> "sudo" in mc.tools) && "apt-get" in mc.tools
    case Winget => "winget" in mc.tools
    case Brew => "brew" in mc.tools
    case Script => "curl" in mc.tools
  }

  predicate Usable(r: Recipe, mc: Machine) {
    r.manager != Url && ManagerAvailable(r.manager, mc)
  }

  function FirstUsable(rs: seq<Recipe>, mc: Machine): Option<Recipe> {
    if rs == [] then None else if Usable(rs[0], mc) then Some(rs[0]) else FirstUsable(rs[1..], mc)
  }

  function FirstManual(rs: seq<Recipe>): Option<Recipe> {
    if rs == [] then None else if rs[0].manager == Url then Some(rs[0]) else FirstManual(rs[1..])
  }

  function RecipesOf(p: Prereq, os: Os): seq<Recipe> {
    if os in p.install then p.install[os] else []
  }

  function PickRecipe(p: Prereq, mc: Machine): Option<Recipe> {
    var rs := RecipesOf(p, mc.os);
    if FirstUsable(rs, mc).Some? then FirstUsable(rs, mc)
    else if FirstManual(rs).Some? then FirstManual(rs)
    else if p.docs != "" then Some(Recipe(Url, p.docs)) else None
  }

  /** The recipe picked is one that runs, not a page to read. */
  predicate CanInstall(p: Prereq, mc: Machine) {
    PickRecipe(p, mc).Some? && PickRecipe(p, mc).value.manager != Url
  }

  predicate Runnable(m: Manifest, mc: Machine, n: Name) {
    Known(m, n) && CanInstall(ByName(m, n).value, mc)
  }

  lemma {:induction false} FirstUsableIsFirst(rs: seq<Recipe>, mc: Machine, i: nat)
    requires i < |rs| && Usable(rs[i], mc) && forall j | 0 <= j < i :: !Usable(rs[j], mc)
    ensures FirstUsable(rs, mc) == Some(rs[i])
  {
    if i > 0 {
      FirstUsableIsFirst(rs[1..], mc, i - 1);
    }
  }

  lemma {:induction false} NoneUsable(rs: seq<Recipe>, mc: Machine)
    ensures FirstUsable(rs, mc) == None <==> forall r | r in rs :: !Usable(r, mc)
    ensures FirstUsable(rs, mc).Some? ==> FirstUsable(rs, mc).value in rs && Usable(FirstUsable(rs, mc).value, mc)
    ensures FirstManual(rs).Some? ==> FirstManual(rs).value.manager == Url
  {
    if rs != [] {
      NoneUsable(rs[1..], mc);
    }
  }

  /** A tool is installable here exactly when some recipe for this system has its manager on the machine;
      the recipe picked is the first such. */
  lemma {:induction false} PicksFirstUsable(m: Manifest, mc: Machine, n: Name)
    requires Known(m, n)
    ensures var rs := RecipesOf(ByName(m, n).value, mc.os);
            && (Runnable(m, mc, n) <==> exists r | r in rs :: Usable(r, mc))
            && forall i | 0 <= i < |rs| && Usable(rs[i], mc) && (forall j | 0 <= j < i :: !Usable(rs[j], mc)) ::
                 PickRecipe(ByName(m, n).value, mc) == Some(rs[i])
  {
    var rs := RecipesOf(ByName(m, n).value, mc.os);
    NoneUsable(rs, mc);
    forall i | 0 <= i < |rs| && Usable(rs[i], mc) && (forall j | 0 <= j < i :: !Usable(rs[j], mc))
      ensures PickRecipe(ByName(m, n).value, mc) == Some(rs[i])
    {
      FirstUsableIsFirst(rs, mc, i);
    }
  }

  // ---------------------------------------------------------------- what is wanted

  predicate HarnessOk(rows: seq<Status>) {
    exists r | r in rows :: r.need == Harness && r.state == Good
  }

  /** The dictionary of rows by name: the last row of a name. */
  function RowOf(rows: seq<Status>, n: Name): (r: Option<Status>)
    ensures r.Some? ==> r.value in rows && r.value.name == n
  {
    if rows == [] then None
    else if rows[|rows| - 1].name == n then Some(rows[|rows| - 1])
    else RowOf(rows[..|rows| - 1], n)
  }

  predicate Lacking(rows: seq<Status>, n: Name) {
    RowOf(rows, n).Some? && RowOf(rows, n).value.state != Good
  }

  /** A row that is not there and that the request calls for. */
  predicate Called(m: Manifest, mc: Machine, rq: Request, r: Status)
    requires Known(m, r.name)
  {
    && r.state != Good
    && (if rq.only != [] then r.name in rq.only
        else var need := NeedOf(ByName(m, r.name).value, mc);
             need == Required || (need == Default && rq.embed) || r.name in rq.optional)
  }

  predicate RowsKnown(m: Manifest, rows: seq<Status>) {
    forall r | r in rows :: r.state != Good ==> Known(m, r.name)
  }

  predicate WantsHarness(rows: seq<Status>, rq: Request) {
    rq.only == [] && !HarnessOk(rows)
  }

  function CalledNames(m: Manifest, mc: Machine, rows: seq<Status>, rq: Request): set<Name>
    requires RowsKnown(m, rows)
  {
    set r | r in rows && r.state != Good && Called(m, mc, rq, r) :: r.name
  }

  function Asked(m: Manifest, mc: Machine, rows: seq<Status>, rq: Request): set<Name>
    requires RowsKnown(m, rows)
  {
    CalledNames(m, mc, rows, rq) + (if WantsHarness(rows, rq) then {CLAUDE} else {})
  }

  /** The dependencies that an installer of `n` brings along. */
  function Brought(m: Manifest, mc: Machine, rows: seq<Status>, n: Name): set<Name> {
    if Runnable(m, mc, n) then set d | d in ByName(m, n).value.needs && Lacking(rows, d) else {}
  }

  function Wanted(m: Manifest, mc: Machine, rows: seq<Status>, rq: Request): set<Name>
    requires RowsKnown(m, rows)
  {
    var asked := Asked(m, mc, rows, rq);
    asked + set n, d | n in asked && d in Brought(m, mc, rows, n) :: d
  }

  // ---------------------------------------------------------------- the plan

  /** Those of the first `k` tools of the manifest that are wanted and can be installed, in its order. */
  function StepsOf(m: Manifest, k: nat, mc: Machine, wanted: set<Name>): seq<Step>
    requires k <= |m|
  {
    if k == 0 then []
    else
      StepsOf(m, k - 1, mc, wanted) +
      (if m[k - 1].name in wanted && CanInstall(m[k - 1], mc)
       then [Step(m[k - 1].name, PickRecipe(m[k - 1], mc).value)] else [])
  }

  /** Those of the first `k` that are wanted and that a person must install. */
  function ManualOf(m: Manifest, k: nat, mc: Machine, wanted: set<Name>): seq<Name>
    requires k <= |m|
  {
    if k == 0 then []
    else
      ManualOf(m, k - 1, mc, wanted) +
      (if m[k - 1].name in wanted && !CanInstall(m[k - 1], mc) then [m[k - 1].name] else [])
  }

  function Names(steps: seq<Step>): set<Name> {
    set s | s in steps :: s.name
  }

  /** A harness is there, or will be. */
  predicate Covered(m: Manifest, rows: seq<Status>, planned: set<Name>) {
    HarnessOk(rows) || exists n | n in planned :: Known(m, n) && ByName(m, n).value.need == Harness
  }

  /** Why a row that is not installed need not be reported. */
  predicate Excused(r: Status, covered: bool, rq: Request) {
    (r.need == Harness && covered) || (r.need == Default && !rq.embed)
  }

  /** The rows reported as left, after those installed by hand. */
  function Reported(manual: seq<Status>, rows: seq<Status>, planned: set<Name>, covered: bool, rq: Request): seq<Status> {
    if rows == [] then manual
    else
      var before, r := Reported(manual, rows[..|rows| - 1], planned, covered, rq), rows[|rows| - 1];
      if r.state == Good || r.state == Off || r.name in planned || r in before || Excused(r, covered, rq) then before
      else before + [r]
  }

  function RowsFor(rows: seq<Status>, names: seq<Name>): (r: seq<Status>)
    requires forall n | n in names :: RowOf(rows, n).Some?
    ensures |r| == |names| && forall i | 0 <= i < |r| :: r[i] == RowOf(rows, names[i]).value
  {
    seq(|names|, i requires 0 <= i < |names| => assert names[i] in names; RowOf(rows, names[i]).value)
  }

  function PlanOf(m: Manifest, mc: Machine, rows: seq<Status>, rq: Request): Result<Plan, Error> {
    if !RowsKnown(m, rows) then Raised(KeyError)
    else
      var wanted := Wanted(m, mc, rows, rq);
      var steps, manual := StepsOf(m, |m|, mc, wanted), ManualOf(m, |m|, mc, wanted);
      if exists n | n in manual :: RowOf(rows, n) == None then Raised(KeyError)
      else Ok(Plan(steps, Reported(RowsFor(rows, manual), rows, Names(steps), Covered(m, rows, Names(steps)), rq)))
  }

  // ---------------------------------------------------------------- what a plan promises

  /** One row per tool of the manifest, in its order, as detection gives them. */
  predicate Detected(m: Manifest, mc: Machine, rows: seq<Status>) {
    |rows| == |m| && forall i | 0 <= i < |m| :: rows[i].name == m[i].name && rows[i].need == NeedOf(m[i], mc)
  }

  function Position(m: Manifest, n: Name): (i: nat)
    ensures i <= |m| && (i < |m| ==> m[i].name == n)
    ensures forall j | 0 <= j < i :: m[j].name != n
  {
    if m == [] || m[0].name == n then 0 else 1 + Position(m[1..], n)
  }

  lemma {:induction false} ByNameIs(m: Manifest, i: nat)
    requires Distinct(m) && i < |m|
    ensures ByName(m, m[i].name) == Some(m[i])
  {
    if i > 0 {
      assert m[0].name != m[i].name;
      ByNameIs(m[1..], i - 1);
    }
  }

  lemma {:induction false} RowOfIs(m: Manifest, mc: Machine, rows: seq<Status>, k: nat, i: nat)
    requires Distinct(m) && Detected(m, mc, rows) && i < k <= |rows|
    ensures RowOf(rows[..k], rows[i].name) == Some(rows[i])
  {
    assert rows[..k][..k - 1] == rows[..k - 1];
    if i < k - 1 {
      assert m[i].name != m[k - 1].name;
      RowOfIs(m, mc, rows, k - 1, i);
    }
  }

  lemma {:induction false} RowIs(m: Manifest, mc: Machine, rows: seq<Status>, i: nat)
    requires Distinct(m) && Detected(m, mc, rows) && i < |m|
    ensures RowOf(rows, m[i].name) == Some(rows[i]) && ByName(m, m[i].name) == Some(m[i])
  {
    assert rows[..|rows|] == rows;
    RowOfIs(m, mc, rows, |rows|, i);
    ByNameIs(m, i);
  }

  /** The step stands for the tool at its position of the manifest. */
  ghost predicate StepFor(m: Manifest, k: nat, mc: Machine, wanted: set<Name>, s: Step) {
    var x := Position(m, s.name);
    x < k <= |m| && s.name in wanted && CanInstall(m[x], mc) && PickRecipe(m[x], mc) == Some(s.recipe)
  }

  lemma {:induction false} StepsStandFor(m: Manifest, k: nat, mc: Machine, wanted: set<Name>, s: Step)
    requires Distinct(m) && k <= |m| && s in StepsOf(m, k, mc, wanted)
    ensures StepFor(m, k, mc, wanted, s)
  {
    if s in StepsOf(m, k - 1, mc, wanted) {
      StepsStandFor(m, k - 1, mc, wanted, s);
    } else {
      assert Position(m, m[k - 1].name) == k - 1;
    }
  }

  lemma {:induction false} StepsCover(m: Manifest, k: nat, mc: Machine, wanted: set<Name>, x: nat)
    requires x < k <= |m| && m[x].name in wanted && CanInstall(m[x], mc)
    ensures Step(m[x].name, PickRecipe(m[x], mc).value) in StepsOf(m, k, mc, wanted)
  {
    if x < k - 1 {
      StepsCover(m, k - 1, mc, wanted, x);
    }
  }

  lemma {:induction false} StepsInOrder(m: Manifest, k: nat, mc: Machine, wanted: set<Name>, i: nat, j: nat)
    requires Distinct(m) && k <= |m| && i < j < |StepsOf(m, k, mc, wanted)|
    ensures Position(m, StepsOf(m, k, mc, wanted)[i].name) < Position(m, StepsOf(m, k, mc, wanted)[j].name)
  {
    var before := StepsOf(m, k - 1, mc, wanted);
    if j < |before| {
      StepsInOrder(m, k - 1, mc, wanted, i, j);
    } else {
      StepsStandFor(m, k - 1, mc, wanted, before[i]);
      assert Position(m, m[k - 1].name) == k - 1;
    }
  }

  lemma {:induction false} StepsOfIs(m: Manifest, k: nat, mc: Machine, wanted: set<Name>)
    requires Distinct(m) && k <= |m|
    ensures var steps := StepsOf(m, k, mc, wanted);
            && (forall s | s in steps :: StepFor(m, k, mc, wanted, s))
            && (forall i, j | 0 <= i < j < |steps| :: Position(m, steps[i].name) < Position(m, steps[j].name))
            && (forall x | 0 <= x < k && m[x].name in wanted && CanInstall(m[x], mc) :: m[x].name in Names(steps))
  {
    var steps := StepsOf(m, k, mc, wanted);
    forall s | s in steps ensures StepFor(m, k, mc, wanted, s) {
      StepsStandFor(m, k, mc, wanted, s);
    }
    forall i, j | 0 <= i < j < |steps| ensures Position(m, steps[i].name) < Position(m, steps[j].name) {
      StepsInOrder(m, k, mc, wanted, i, j);
    }
    forall x | 0 <= x < k && m[x].name in wanted && CanInstall(m[x], mc) ensures m[x].name in Names(steps) {
      StepsCover(m, k, mc, wanted, x);
    }
  }

  lemma {:induction false} ManualStandFor(m: Manifest, k: nat, mc: Machine, wanted: set<Name>, n: Name)
    requires Distinct(m) && k <= |m| && n in ManualOf(m, k, mc, wanted)
    ensures n in wanted && Position(m, n) < k && !CanInstall(m[Position(m, n)], mc)
  {
    if n in ManualOf(m, k - 1, mc, wanted) {
      ManualStandFor(m, k - 1, mc, wanted, n);
    } else {
      assert Position(m, m[k - 1].name) == k - 1;
    }
  }

  lemma {:induction false} ManualCovers(m: Manifest, k: nat, mc: Machine, wanted: set<Name>, x: nat)
    requires x < k <= |m| && m[x].name in wanted && !CanInstall(m[x], mc)
    ensures m[x].name in ManualOf(m, k, mc, wanted)
  {
    if x < k - 1 {
      ManualCovers(m, k - 1, mc, wanted, x);
    }
  }

  lemma {:induction false} ManualInOrder(m: Manifest, k: nat, mc: Machine, wanted: set<Name>, i: nat, j: nat)
    requires Distinct(m) && k <= |m| && i < j < |ManualOf(m, k, mc, wanted)|
    ensures Position(m, ManualOf(m, k, mc, wanted)[i]) < Position(m, ManualOf(m, k, mc, wanted)[j])
  {
    var before := ManualOf(m, k - 1, mc, wanted);
    if j < |before| {
      ManualInOrder(m, k - 1, mc, wanted, i, j);
    } else {
      ManualStandFor(m, k - 1, mc, wanted, before[i]);
      assert Position(m, m[k - 1].name) == k - 1;
    }
  }

  lemma {:induction false} ManualOfIs(m: Manifest, k: nat, mc: Machine, wanted: set<Name>)
    requires Distinct(m) && k <= |m|
    ensures var manual := ManualOf(m, k, mc, wanted);
            && (forall n | n in manual :: n in wanted && Position(m, n) < k && !CanInstall(m[Position(m, n)], mc))
            && (forall i, j | 0 <= i < j < |manual| :: Position(m, manual[i]) < Position(m, manual[j]))
            && (forall x | 0 <= x < k && m[x].name in wanted && !CanInstall(m[x], mc) :: m[x].name in manual)
  {
    var manual := ManualOf(m, k, mc, wanted);
    forall n | n in manual ensures n in wanted && Position(m, n) < k && !CanInstall(m[Position(m, n)], mc) {
      ManualStandFor(m, k, mc, wanted, n);
    }
    forall i, j | 0 <= i < j < |manual| ensures Position(m, manual[i]) < Position(m, manual[j]) {
      ManualInOrder(m, k, mc, wanted, i, j);
    }
    forall x | 0 <= x < k && m[x].name in wanted && !CanInstall(m[x], mc) ensures m[x].name in manual {
      ManualCovers(m, k, mc, wanted, x);
    }
  }

  predicate NoRepeats(left: seq<Status>) {
    forall i, j | 0 <= i < j < |left| :: left[i] != left[j]
  }

  lemma {:induction false} ReportedIs(manual: seq<Status>, rows: seq<Status>, planned: set<Name>, covered: bool, rq: Request)
    ensures var left := Reported(manual, rows, planned, covered, rq);
            && manual <= left
            && (NoRepeats(manual) ==> NoRepeats(left))
            && (forall r | r in left :: r in manual || (r in rows && r.name !in planned))
            && (forall r | r in rows ::
                  (r in left <==> (r in manual
                    || (r.state != Good && r.state != Off && r.name !in planned && !Excused(r, covered, rq)))))
  {
    if rows != [] {
      var front, r := rows[..|rows| - 1], rows[|rows| - 1];
      ReportedIs(manual, front, planned, covered, rq);
      assert forall x | x in rows :: x in front || x == r;
    }
  }

  lemma {:induction false} RowIsKnown(m: Manifest, mc: Machine, rows: seq<Status>, r: Status)
    requires Distinct(m) && Detected(m, mc, rows) && r in rows
    ensures Known(m, r.name) && RowOf(rows, r.name) == Some(r) && Position(m, r.name) < |m|
  {
    var i :| 0 <= i < |rows| && rows[i] == r;
    assert m[i].name == r.name;
    RowIs(m, mc, rows, i);
  }

  lemma {:induction false} LackingIsKnown(m: Manifest, mc: Machine, rows: seq<Status>, d: Name)
    requires Distinct(m) && Detected(m, mc, rows) && RowOf(rows, d).Some?
    ensures Position(m, d) < |m|
  {
    RowIsKnown(m, mc, rows, RowOf(rows, d).value);
  }

  /** When no harness is there, the default one is missing. */
  lemma {:induction false} ClaudeLacks(m: Manifest, mc: Machine, rows: seq<Status>)
    requires GoodManifest(m) && Detected(m, mc, rows) && !HarnessOk(rows)
    ensures Lacking(rows, CLAUDE)
  {
    var c :| 0 <= c < |m| && m[c].name == CLAUDE && m[c].need == Harness;
    assert CLAUDE != UV by {
      assert |CLAUDE.text| == 6 && |UV.text| == 2;
    }
    RowIs(m, mc, rows, c);
    assert rows[c].need == Harness && rows[c] in rows;
  }

  lemma {:induction false} DetectedRowsKnown(m: Manifest, mc: Machine, rows: seq<Status>)
    requires Distinct(m) && Detected(m, mc, rows)
    ensures RowsKnown(m, rows)
  {
    forall r | r in rows ensures Known(m, r.name) {
      RowIsKnown(m, mc, rows, r);
    }
  }

  /** Only tools of the manifest that are missing are wanted. */
  lemma {:induction false} WantedIs(m: Manifest, mc: Machine, rows: seq<Status>, rq: Request, n: Name)
    requires GoodManifest(m) && Detected(m, mc, rows) && RowsKnown(m, rows) && n in Wanted(m, mc, rows, rq)
    ensures Position(m, n) < |m| && Lacking(rows, n)
  {
    if n in CalledNames(m, mc, rows, rq) {
      var r :| r in rows && r.state != Good && Called(m, mc, rq, r) && r.name == n;
      RowIsKnown(m, mc, rows, r);
    } else if n in Asked(m, mc, rows, rq) {
      ClaudeLacks(m, mc, rows);
      LackingIsKnown(m, mc, rows, n);
    } else {
      var a :| a in Asked(m, mc, rows, rq) && n in Brought(m, mc, rows, a);
      LackingIsKnown(m, mc, rows, n);
    }
  }

  /** The plan of a detected machine exists, and this is what it consists of. */
  lemma {:induction false} PlanIs(m: Manifest, mc: Machine, rows: seq<Status>, rq: Request)
    requires GoodManifest(m) && Detected(m, mc, rows)
    ensures PlanOf(m, mc, rows, rq).Ok?
    ensures RowsKnown(m, rows) && forall n | n in ManualOf(m, |m|, mc, Wanted(m, mc, rows, rq)) :: RowOf(rows, n).Some?
    ensures var wanted, plan := Wanted(m, mc, rows, rq), PlanOf(m, mc, rows, rq).value;
            && plan.steps == StepsOf(m, |m|, mc, wanted)
            && plan.left == Reported(RowsFor(rows, ManualOf(m, |m|, mc, wanted)), rows, Names(plan.steps),
                                     Covered(m, rows, Names(plan.steps)), rq)
  {
    DetectedRowsKnown(m, mc, rows);
    var wanted := Wanted(m, mc, rows, rq);
    ManualOfIs(m, |m|, mc, wanted);
    forall n | n in ManualOf(m, |m|, mc, wanted) ensures RowOf(rows, n).Some? {
      WantedIs(m, mc, rows, rq, n);
    }
  }

  /** `plan` is the plan of a detected machine. */
  ghost predicate Planned(m: Manifest, mc: Machine, rows: seq<Status>, rq: Request, plan: Plan) {
    GoodManifest(m) && Detected(m, mc, rows) && PlanOf(m, mc, rows, rq) == Ok(plan)
  }

  lemma {:induction false} StepIs(m: Manifest, mc: Machine, rows: seq<Status>, rq: Request, plan: Plan, s: Step)
    requires Planned(m, mc, rows, rq, plan)
    requires s in plan.steps
    ensures RowsKnown(m, rows) && s.name in Wanted(m, mc, rows, rq) && Lacking(rows, s.name)
    ensures Position(m, s.name) < |m| && ByName(m, s.name) == Some(m[Position(m, s.name)]) && CanInstall(m[Position(m, s.name)], mc)
    ensures s.recipe in RecipesOf(ByName(m, s.name).value, mc.os) && Usable(s.recipe, mc)
  {
    PlanIs(m, mc, rows, rq);
    var wanted := Wanted(m, mc, rows, rq);
    StepsStandFor(m, |m|, mc, wanted, s);
    WantedIs(m, mc, rows, rq, s.name);
    assert StepFor(m, |m|, mc, wanted, s);
    var x := Position(m, s.name);
    ByNameIs(m, x);
    NoneUsable(RecipesOf(m[x], mc.os), mc);
  }

  /** Every step is a tool that is not there, called for, with a recipe that works here; the steps follow
      the manifest, each once. */
  lemma {:induction false} InstallsOnlyWhatIsMissing(m: Manifest, mc: Machine, rows: seq<Status>, rq: Request, plan: Plan)
    requires Planned(m, mc, rows, rq, plan)
    ensures RowsKnown(m, rows)
    ensures forall s | s in plan.steps ::
              && Lacking(rows, s.name) && s.name in Wanted(m, mc, rows, rq)
              && Known(m, s.name) && s.recipe in RecipesOf(ByName(m, s.name).value, mc.os) && Usable(s.recipe, mc)
    ensures var steps := plan.steps;
            forall i, j | 0 <= i < j < |steps| :: Position(m, steps[i].name) < Position(m, steps[j].name)
  {
    PlanIs(m, mc, rows, rq);
    StepsOfIs(m, |m|, mc, Wanted(m, mc, rows, rq));
    forall s | s in plan.steps
      ensures Lacking(rows, s.name) && s.name in Wanted(m, mc, rows, rq)
      ensures Known(m, s.name) && s.recipe in RecipesOf(ByName(m, s.name).value, mc.os) && Usable(s.recipe, mc)
    {
      StepIs(m, mc, rows, rq, plan, s);
    }
  }

  /** The rows of the tools installed by hand: one per name, each a row of the machine. */
  lemma {:induction false} ManualRows(m: Manifest, mc: Machine, rows: seq<Status>, rq: Request)
    requires GoodManifest(m) && Detected(m, mc, rows)
    ensures RowsKnown(m, rows) && forall n | n in ManualOf(m, |m|, mc, Wanted(m, mc, rows, rq)) :: RowOf(rows, n).Some?
    ensures var names := ManualOf(m, |m|, mc, Wanted(m, mc, rows, rq));
            var manual := RowsFor(rows, names);
            && NoRepeats(manual)
            && (forall l | l in manual :: l in rows && l.name in names)
            && (forall i | 0 <= i < |rows| && rows[i].name in names :: rows[i] in manual)
  {
    PlanIs(m, mc, rows, rq);
    var names := ManualOf(m, |m|, mc, Wanted(m, mc, rows, rq));
    var manual := RowsFor(rows, names);
    ManualOfIs(m, |m|, mc, Wanted(m, mc, rows, rq));
    forall x | 0 <= x < |manual| ensures manual[x] in rows && manual[x].name == names[x] && names[x] in names {
      assert RowOf(rows, names[x]).Some?;
    }
    forall i | 0 <= i < |rows| && rows[i].name in names ensures rows[i] in manual {
      RowIs(m, mc, rows, i);
      var x :| 0 <= x < |names| && names[x] == rows[i].name;
      assert manual[x] == rows[i];
    }
  }

  /** A tool is planned or installed by hand exactly when it is wanted, by whether its recipe runs. */
  lemma {:induction false} WantedSplits(m: Manifest, mc: Machine, rows: seq<Status>, rq: Request, plan: Plan, i: nat)
    requires Planned(m, mc, rows, rq, plan) && i < |m|
    ensures RowsKnown(m, rows)
    ensures var wanted, n := Wanted(m, mc, rows, rq), m[i].name;
            && (n in Names(plan.steps) <==> n in wanted && CanInstall(m[i], mc))
            && (n in ManualOf(m, |m|, mc, wanted) <==> n in wanted && !CanInstall(m[i], mc))
  {
    PlanIs(m, mc, rows, rq);
    var wanted, n := Wanted(m, mc, rows, rq), m[i].name;
    StepsOfIs(m, |m|, mc, wanted);
    ManualOfIs(m, |m|, mc, wanted);
    assert Position(m, n) == i;
    var steps := plan.steps;
    if n in Names(steps) {
      assert StepFor(m, |m|, mc, wanted, StepNamed(steps, n));
    }
  }

  /** Main result: each row is in at most one of steps and left, once, and in exactly one of them when it
      is not installed and either wanted, or neither switched off nor excused. */
  lemma {:induction false} EachRowOnce(m: Manifest, mc: Machine, rows: seq<Status>, rq: Request, plan: Plan, i: nat)
    requires Planned(m, mc, rows, rq, plan) && i < |rows|
    ensures RowsKnown(m, rows)
    ensures var r := rows[i];
            var planned := Names(plan.steps);
            && !(r.name in planned && r in plan.left)
            && (r.name in planned || r in plan.left <==>
                  && r.state != Good
                  && (r.name in Wanted(m, mc, rows, rq) || (r.state != Off && !Excused(r, Covered(m, rows, planned), rq))))
    ensures NoRepeats(plan.left)
    ensures forall l | l in plan.left :: l in rows
  {
    PlanIs(m, mc, rows, rq);
    WantedSplits(m, mc, rows, rq, plan, i);
    ManualRows(m, mc, rows, rq);
    var wanted, r := Wanted(m, mc, rows, rq), rows[i];
    var planned := Names(plan.steps);
    ReportedIs(RowsFor(rows, ManualOf(m, |m|, mc, wanted)), rows, planned, Covered(m, rows, planned), rq);
    if r.name in wanted {
      WantedIs(m, mc, rows, rq, r.name);
      RowIs(m, mc, rows, i);
    }
  }

  ghost function StepNamed(steps: seq<Step>, n: Name): (s: Step)
    requires n in Names(steps)
    ensures s in steps && s.name == n
  {
    var s :| s in steps && s.name == n; s
  }

  /** Main result: whatever a step needs and is not there is an earlier step, or is left to a person. */
  lemma {:induction false} DependenciesFirst(m: Manifest, mc: Machine, rows: seq<Status>, rq: Request, plan: Plan, i: nat, d: Name)
    requires Planned(m, mc, rows, rq, plan)
    requires i < |plan.steps|
    requires Known(m, plan.steps[i].name)
    requires d in ByName(m, plan.steps[i].name).value.needs && Lacking(rows, d)
    ensures (exists j | 0 <= j < i :: plan.steps[j].name == d) || RowOf(rows, d).value in plan.left
  {
    PlanIs(m, mc, rows, rq);
    var s := plan.steps[i];
    StepIs(m, mc, rows, rq, plan, s);
    var y := DependencyAt(m, Position(m, s.name), d);
    assert d in Brought(m, mc, rows, s.name);
    WantedNeeds(m, mc, rows, rq, s.name, d);
    EachRowOnce(m, mc, rows, rq, plan, y);
    RowIs(m, mc, rows, y);
    if d in Names(plan.steps) {
      EarlierStep(m, mc, Wanted(m, mc, rows, rq), i, y);
    }
  }

  /** Of two planned tools the one that is earlier in the manifest is the earlier step. */
  lemma {:induction false} EarlierStep(m: Manifest, mc: Machine, wanted: set<Name>, i: nat, y: nat)
    requires Distinct(m) && i < |StepsOf(m, |m|, mc, wanted)|
    requires y < Position(m, StepsOf(m, |m|, mc, wanted)[i].name) <= |m|
    requires m[y].name in Names(StepsOf(m, |m|, mc, wanted))
    ensures exists j | 0 <= j < i :: StepsOf(m, |m|, mc, wanted)[j].name == m[y].name
  {
    var steps := StepsOf(m, |m|, mc, wanted);
    var s := StepNamed(steps, m[y].name);
    var j :| 0 <= j < |steps| && steps[j] == s;
    StepsStandFor(m, |m|, mc, wanted, s);
    assert Position(m, m[y].name) == y;
    if i < j {
      StepsInOrder(m, |m|, mc, wanted, i, j);
    }
    assert steps[j].name == m[y].name;
  }

  lemma {:induction false} BroughtBy(m: Manifest, mc: Machine, rows: seq<Status>, rq: Request, n: Name) returns (a: Name)
    requires RowsKnown(m, rows) && n in Wanted(m, mc, rows, rq) && n !in Asked(m, mc, rows, rq)
    ensures Known(m, a) && n in ByName(m, a).value.needs
  {
    a :| a in Asked(m, mc, rows, rq) && n in Brought(m, mc, rows, a);
  }

  /** A dependency stands earlier in the manifest and needs nothing. */
  lemma {:induction false} DependencyAt(m: Manifest, z: nat, d: Name) returns (y: nat)
    requires GoodManifest(m) && z < |m| && d in m[z].needs
    ensures y < z && m[y].name == d && m[y].needs == []
  {
    y :| 0 <= y < z && m[y].name == d && m[y].needs == [];
  }

  lemma {:induction false} KnownAt(m: Manifest, n: Name)
    requires Distinct(m) && Known(m, n)
    ensures Position(m, n) < |m| && ByName(m, n) == Some(m[Position(m, n)])
  {
    var z := Position(m, n);
    assert exists p | p in m :: p.name == n;
    ByNameIs(m, z);
  }

  /** What is needed by something needs nothing itself. */
  lemma {:induction false} NeededNeedsNothing(m: Manifest, a: Name, x: nat)
    requires GoodManifest(m) && Known(m, a) && x < |m| && m[x].name in ByName(m, a).value.needs
    ensures m[x].needs == []
  {
    KnownAt(m, a);
    var y := DependencyAt(m, Position(m, a), m[x].name);
    assert Position(m, m[x].name) == x && Position(m, m[y].name) == y;
  }

  lemma {:induction false} AskedNeeds(m: Manifest, mc: Machine, rows: seq<Status>, rq: Request, n: Name, d: Name)
    requires RowsKnown(m, rows) && n in Asked(m, mc, rows, rq) && d in Brought(m, mc, rows, n)
    ensures d in Wanted(m, mc, rows, rq)
  {
  }

  /** A wanted tool with a recipe has all its missing dependencies wanted too. */
  lemma {:induction false} WantedNeeds(m: Manifest, mc: Machine, rows: seq<Status>, rq: Request, n: Name, d: Name)
    requires GoodManifest(m) && RowsKnown(m, rows) && n in Wanted(m, mc, rows, rq) && d in Brought(m, mc, rows, n)
    ensures d in Wanted(m, mc, rows, rq)
  {
    if n in Asked(m, mc, rows, rq) {
      AskedNeeds(m, mc, rows, rq, n, d);
    } else {
      var a := BroughtBy(m, mc, rows, rq, n);
      KnownAt(m, n);
      NeededNeedsNothing(m, a, Position(m, n));
    }
  }

  // ---------------------------------------------------------------- planning, list by list

  function ToSet(names: seq<Name>): set<Name> {
    set n | n in names
  }

  function IndexOf(names: seq<Name>, n: Name): (i: nat)
    requires n in names
    ensures i < |names| && names[i] == n
  {
    if names[0] == n then 0 else 1 + IndexOf(names[1..], n)
  }

  function InsertAt(names: seq<Name>, i: nat, n: Name): (r: seq<Name>)
    requires i <= |names|
    ensures ToSet(r) == ToSet(names) + {n}
  {
    var r := names[..i] + [n] + names[i..];
    assert forall x | x in names :: x in names[..i] || x in names[i..] by {
      assert names == names[..i] + names[i..];
    }
    r
  }

  lemma {:induction false} CalledSnoc(m: Manifest, mc: Machine, rows: seq<Status>, rq: Request, row: Status)
    requires RowsKnown(m, rows + [row])
    ensures RowsKnown(m, rows)
    ensures CalledNames(m, mc, rows + [row], rq) ==
            CalledNames(m, mc, rows, rq) + if row.state != Good && Called(m, mc, rq, row) then {row.name} else {}
  {
    assert forall r | r in rows :: r in rows + [row];
  }

  /** The rows the request calls for; an unknown name raises. */
  method CollectCalled(m: Manifest, mc: Machine, rows: seq<Status>, rq: Request) returns (r: Result<seq<Name>, Error>)
    ensures r.Ok? <==> RowsKnown(m, rows)
    ensures r.Ok? ==> ToSet(r.value) == CalledNames(m, mc, rows, rq)
  {
    var wanted: seq<Name> := [];
    for i := 0 to |rows|
      invariant RowsKnown(m, rows[..i])
      invariant ToSet(wanted) == CalledNames(m, mc, rows[..i], rq)
    {
      var row := rows[i];
      assert rows[..i + 1] == rows[..i] + [row];
      if row.state == Good {
        CalledSnoc(m, mc, rows[..i], rq, row);
        continue;
      }
      var p := ByName(m, row.name);
      if p == None {
        return Raised(KeyError);
      }
      CalledSnoc(m, mc, rows[..i], rq, row);
      if rq.only != [] {
        if row.name in rq.only {
          wanted := wanted + [row.name];
        }
        continue;
      }
      var need := NeedOf(p.value, mc);
      if need == Required || (need == Default && rq.embed) || row.name in rq.optional {
        wanted := wanted + [row.name];
      }
    }
    assert rows[..|rows|] == rows;
    return Ok(wanted);
  }

  /** Puts the missing dependencies of what can be installed in front of it. */
  method InsertDependencies(m: Manifest, mc: Machine, rows: seq<Status>, asked: seq<Name>) returns (wanted: seq<Name>)
    requires forall n | n in asked :: Known(m, n)
    ensures ToSet(wanted) == ToSet(asked) + set n, d | n in ToSet(asked) && d in Brought(m, mc, rows, n) :: d
  {
    wanted := asked;
    for i := 0 to |asked|
      invariant ToSet(asked) <= ToSet(wanted)
      invariant ToSet(wanted) == ToSet(asked) + set n, d | n in ToSet(asked[..i]) && d in Brought(m, mc, rows, n) :: d
    {
      var name := asked[i];
      ghost var before := ToSet(wanted);
      assert asked[..i + 1] == asked[..i] + [name];
      assert ToSet(asked[..i + 1]) == ToSet(asked[..i]) + {name};
      assert name in asked && name in ToSet(asked) && name in ToSet(wanted);
      if CanInstall(ByName(m, name).value, mc) {
        wanted := InsertNeeds(rows, wanted, name, ByName(m, name).value.needs);
      }
      assert ToSet(wanted) == before + Brought(m, mc, rows, name);
    }
    assert asked[..|asked|] == asked;
  }

  method InsertNeeds(rows: seq<Status>, names: seq<Name>, name: Name, needs: seq<Name>) returns (wanted: seq<Name>)
    requires name in names
    ensures ToSet(wanted) == ToSet(names) + set d | d in needs && Lacking(rows, d)
  {
    wanted := names;
    for j := 0 to |needs|
      invariant ToSet(wanted) == ToSet(names) + set d | d in needs[..j] && Lacking(rows, d)
    {
      assert needs[..j + 1] == needs[..j] + [needs[j]];
      assert name in ToSet(names);
      if needs[j] !in wanted && Lacking(rows, needs[j]) {
        wanted := InsertAt(wanted, IndexOf(wanted, name), needs[j]);
      }
    }
    assert needs[..|needs|] == needs;
  }

  lemma {:induction false} RowsForPush(rows: seq<Status>, names: seq<Name>, n: Name)
    requires (forall x | x in names :: RowOf(rows, x).Some?) && RowOf(rows, n).Some?
    ensures forall x | x in names + [n] :: RowOf(rows, x).Some?
    ensures RowsFor(rows, names + [n]) == RowsFor(rows, names) + [RowOf(rows, n).value]
  {
  }

  /** Splits the wanted tools into steps and manual installs; sorting by the manifest's order walks it. */
  method Split(m: Manifest, mc: Machine, rows: seq<Status>, wanted: seq<Name>) returns (r: Result<Plan, Error>)
    ensures r.Raised? <==> exists n | n in ManualOf(m, |m|, mc, ToSet(wanted)) :: RowOf(rows, n) == None
    ensures r.Ok? ==> r.value.steps == StepsOf(m, |m|, mc, ToSet(wanted))
                      && r.value.left == RowsFor(rows, ManualOf(m, |m|, mc, ToSet(wanted)))
  {
    var steps: seq<Step>, left: seq<Status> := [], [];
    for k := 0 to |m|
      invariant steps == StepsOf(m, k, mc, ToSet(wanted))
      invariant forall n | n in ManualOf(m, k, mc, ToSet(wanted)) :: RowOf(rows, n).Some?
      invariant left == RowsFor(rows, ManualOf(m, k, mc, ToSet(wanted)))
    {
      var p := m[k];
      assert p.name in wanted <==> p.name in ToSet(wanted);
      if p.name in wanted {
        if CanInstall(p, mc) {
          steps := steps + [Step(p.name, PickRecipe(p, mc).value)];
        } else {
          var row := RowOf(rows, p.name);
          if row == None {
            ManualCovers(m, |m|, mc, ToSet(wanted), k);
            return Raised(KeyError);
          }
          RowsForPush(rows, ManualOf(m, k, mc, ToSet(wanted)), p.name);
          left := left + [row.value];
        }
      }
    }
    return Ok(Plan(steps, left));
  }

  method BuildPlan(m: Manifest, mc: Machine, rows: seq<Status>, rq: Request) returns (r: Result<Plan, Error>)
    requires GoodManifest(m)
    ensures r == PlanOf(m, mc, rows, rq)
  {
    var called := CollectCalled(m, mc, rows, rq);
    if called.Raised? {
      return Raised(KeyError);
    }
    var asked := called.value;
    if WantsHarness(rows, rq) && CLAUDE !in asked {
      asked := asked + [CLAUDE];
    }
    assert ToSet(asked) == Asked(m, mc, rows, rq);
    assert Known(m, CLAUDE);
    assert forall n | n in asked :: n in ToSet(asked);
    var wanted := InsertDependencies(m, mc, rows, asked);
    assert ToSet(wanted) == Wanted(m, mc, rows, rq);
    var split := Split(m, mc, rows, wanted);
    if split.Raised? {
      return Raised(KeyError);
    }
    var planned := Names(split.value.steps);
    var left := Report(split.value.left, rows, planned, Covered(m, rows, planned), rq);
    return Ok(Plan(split.value.steps, left));
  }

  /** Adds the rows that are neither planned nor excused to those installed by hand. */
  method Report(manual: seq<Status>, rows: seq<Status>, planned: set<Name>, covered: bool, rq: Request) returns (left: seq<Status>)
    ensures left == Reported(manual, rows, planned, covered, rq)
  {
    left := manual;
    for i := 0 to |rows|
      invariant left == Reported(manual, rows[..i], planned, covered, rq)
    {
      assert rows[..i + 1][..i] == rows[..i];
      var row := rows[i];
      if row.state == Good || row.state == Off || row.name in planned || row in left {
        continue;
      }
      if Excused(row, covered, rq) {
        continue;
      }
      left := left + [row];
    }
    assert rows[..|rows|] == rows;
  }

  // ---------------------------------------------------------------- running the steps

  /** The exit codes by name, and the names whose installer was started, in order. */
  datatype Runs = Runs(out: map<Name, int>, ran: seq<Name>)

  /** A dependency has run before and did not end in 0. */
  predicate Dead(needs: seq<Name>, out: map<Name, int>) {
    exists d | d in needs :: d in out && out[d] != 0
  }

  function RunOne(m: Manifest, w: Runs, s: Step, exit: int): Result<Runs, Error> {
    match ByName(m, s.name)
    case None => Raised(KeyError)
    case Some(p) =>
      if Dead(p.needs, w.out) then Ok(w.(out := w.out[s.name := -1]))
      else if s.recipe.manager == Model then Ok(Runs(w.out[s.name := if exit == 0 then 0 else 1], w.ran + [s.name]))
      else if s.recipe.manager == Url then Ok(w.(out := w.out[s.name := 1]))
      else Ok(Runs(w.out[s.name := exit], w.ran + [s.name]))
  }

  /** The steps run in order; `exit(i)` is what the installer of step `i` gives if it is started. */
  function RunAll(m: Manifest, steps: seq<Step>, exit: nat -> int): Result<Runs, Error> {
    if steps == [] then Ok(Runs(map[], []))
    else match RunAll(m, steps[..|steps| - 1], exit)
      case Raised(e) => Raised(e)
      case Ok(w) => RunOne(m, w, steps[|steps| - 1], exit(|steps| - 1))
  }

  method RunSteps(m: Manifest, steps: seq<Step>, exit: nat -> int) returns (r: Result<Runs, Error>)
    ensures r == RunAll(m, steps, exit)
  {
    var w := Runs(map[], []);
    for i := 0 to |steps|
      invariant RunAll(m, steps[..i], exit) == Ok(w)
    {
      assert steps[..i + 1][..i] == steps[..i];
      var s := steps[i];
      var p := ByName(m, s.name);
      if p == None {
        RaisedStays(m, steps, exit, i + 1);
        return Raised(KeyError);
      }
      if Dead(p.value.needs, w.out) {
        w := w.(out := w.out[s.name := -1]);
        continue;
      }
      if s.recipe.manager == Model {
        w := Runs(w.out[s.name := if exit(i) == 0 then 0 else 1], w.ran + [s.name]);
        continue;
      }
      if s.recipe.manager == Url {
        w := w.(out := w.out[s.name := 1]);
        continue;
      }
      w := Runs(w.out[s.name := exit(i)], w.ran + [s.name]);
    }
    assert steps[..|steps|] == steps;
    return Ok(w);
  }

  lemma {:induction false} RaisedStays(m: Manifest, steps: seq<Step>, exit: nat -> int, k: nat)
    requires k <= |steps| && RunAll(m, steps[..k], exit).Raised?
    ensures RunAll(m, steps, exit) == Raised(KeyError)
    decreases |steps|
  {
    if k < |steps| {
      assert steps[..|steps| - 1][..k] == steps[..k];
      RaisedStays(m, steps[..|steps| - 1], exit, k);
    } else {
      assert steps[..k] == steps;
      assert RunAll(m, steps, exit).error.KeyError?;
    }
  }

  predicate DistinctSteps(steps: seq<Step>) {
    forall i, j | 0 <= i < j < |steps| :: steps[i].name != steps[j].name
  }

  /** The code of a step once its dependencies' codes are known. */
  predicate RanRight(m: Manifest, steps: seq<Step>, exit: nat -> int, w: Runs, i: nat)
    requires i < |steps| && Known(m, steps[i].name)
  {
    var s, needs := steps[i], ByName(m, steps[i].name).value.needs;
    var dead := exists j | 0 <= j < i :: steps[j].name in needs && steps[j].name in w.out && w.out[steps[j].name] != 0;
    && s.name in w.out
    && (if dead then w.out[s.name] == -1 && s.name !in w.ran
        else if s.recipe.manager == Url then w.out[s.name] == 1 && s.name !in w.ran
        else s.name in w.ran && w.out[s.name] == if s.recipe.manager == Model && exit(i) != 0 then 1 else exit(i))
  }

  /** One code per step; a step is started exactly when no earlier step it depends on failed or was
      skipped, and then its code is the installer's; a skipped one gets -1. */
  lemma {:induction false} EachStepOnce(m: Manifest, steps: seq<Step>, exit: nat -> int)
    requires DistinctSteps(steps) && forall s | s in steps :: Known(m, s.name)
    ensures RunAll(m, steps, exit).Ok?
    ensures Account(m, steps, exit, RunAll(m, steps, exit).value)
  {
    if steps != [] {
      var front, s := steps[..|steps| - 1], steps[|steps| - 1];
      assert steps == front + [s];
      FrontOf(m, front, s);
      EachStepOnce(m, front, exit);
      AccountStep(m, front, s, exit, RunAll(m, front, exit).value);
    }
  }

  lemma {:induction false} FrontOf(m: Manifest, front: seq<Step>, s: Step)
    requires DistinctSteps(front + [s]) && forall x | x in front + [s] :: Known(m, x.name)
    ensures DistinctSteps(front) && forall x | x in front :: Known(m, x.name)
  {
    forall i, j | 0 <= i < j < |front| ensures front[i].name != front[j].name {
      assert (front + [s])[i] == front[i] && (front + [s])[j] == front[j];
    }
    assert forall x | x in front :: x in front + [s];
  }

  predicate Account(m: Manifest, steps: seq<Step>, exit: nat -> int, w: Runs)
    requires forall s | s in steps :: Known(m, s.name)
  {
    && w.out.Keys == Names(steps)
    && (forall n | n in w.ran :: n in Names(steps))
    && forall i | 0 <= i < |steps| :: RanRight(m, steps, exit, w, i)
  }

  lemma {:induction false} AccountStep(m: Manifest, front: seq<Step>, s: Step, exit: nat -> int, w0: Runs)
    requires DistinctSteps(front + [s]) && forall x | x in front + [s] :: Known(m, x.name)
    requires (forall x | x in front :: Known(m, x.name)) && Account(m, front, exit, w0)
    ensures RunOne(m, w0, s, exit(|front|)).Ok? && Account(m, front + [s], exit, RunOne(m, w0, s, exit(|front|)).value)
  {
    var steps := front + [s];
    assert s in steps;
    var w := RunOne(m, w0, s, exit(|front|)).value;
    assert s.name !in Names(front) by {
      forall k | 0 <= k < |front| ensures front[k].name != s.name {
        assert steps[k].name != steps[|front|].name;
      }
    }
    assert Names(steps) == Names(front) + {s.name};
    forall i | 0 <= i < |steps| ensures RanRight(m, steps, exit, w, i) {
      if i < |front| {
        EarlierStays(m, front, s, exit, w0, w, i);
      } else {
        LastRanRight(m, front, s, exit, w0, w);
      }
    }
  }

  lemma {:induction false} EarlierStays(m: Manifest, front: seq<Step>, s: Step, exit: nat -> int, w0: Runs, w: Runs, i: nat)
    requires i < |front| && Known(m, front[i].name) && RanRight(m, front, exit, w0, i)
    requires s.name !in Names(front) && RunOne(m, w0, s, exit(|front|)) == Ok(w)
    ensures RanRight(m, front + [s], exit, w, i)
  {
    forall j | 0 <= j <= i ensures front[j].name != s.name && (front + [s])[j] == front[j] {
      assert front[j] in front;
    }
  }

  lemma {:induction false} LastRanRight(m: Manifest, front: seq<Step>, s: Step, exit: nat -> int, w0: Runs, w: Runs)
    requires w0.out.Keys == Names(front) && (forall n | n in w0.ran :: n in Names(front)) && s.name !in Names(front)
    requires RunOne(m, w0, s, exit(|front|)) == Ok(w)
    ensures RanRight(m, front + [s], exit, w, |front|)
  {
    var needs := ByName(m, s.name).value.needs;
    DeadIs(front, w0.out, needs);
    forall j | 0 <= j < |front|
      ensures (front + [s])[j] == front[j] && front[j].name in w.out && w.out[front[j].name] == w0.out[front[j].name]
    {
      assert front[j] in front;
    }
  }

  lemma {:induction false} DeadIs(steps: seq<Step>, out: map<Name, int>, needs: seq<Name>)
    requires out.Keys == Names(steps)
    ensures Dead(needs, out) <==> exists j | 0 <= j < |steps| :: steps[j].name in needs && out[steps[j].name] != 0
  {
    if Dead(needs, out) {
      var d :| d in needs && d in out && out[d] != 0;
      var s := StepNamed(steps, d);
      var j :| 0 <= j < |steps| && steps[j] == s;
    }
  }

  /** Planning and running together: an installer is started only when everything it needs is there
      already, was installed by an earlier step of this run, or was reported as left to a person. */
  lemma {:induction false} InstallersFindTheirNeeds(m: Manifest, mc: Machine, rows: seq<Status>, rq: Request, plan: Plan, exit: nat -> int, w: Runs, n: Name, d: Name)
    requires Planned(m, mc, rows, rq, plan)
    requires RunAll(m, plan.steps, exit) == Ok(w)
    requires n in w.ran
    requires Known(m, n) && d in ByName(m, n).value.needs
    ensures && RowOf(rows, d).Some?
            && (|| RowOf(rows, d).value.state == Good
                || (d in w.out && w.out[d] == 0)
                || RowOf(rows, d).value in plan.left)
  {
    var i := StartedStep(m, mc, rows, rq, plan, exit, w, n);
    var y := NeedsRow(m, n, d);
    RowIs(m, mc, rows, y);
    if rows[y].state != Good && rows[y] !in plan.left {
      DependenciesFirst(m, mc, rows, rq, plan, i, d);
      var j :| 0 <= j < i && plan.steps[j].name == d;
    }
  }

  lemma {:induction false} StartedStep(m: Manifest, mc: Machine, rows: seq<Status>, rq: Request, plan: Plan, exit: nat -> int, w: Runs, n: Name) returns (i: nat)
    requires Planned(m, mc, rows, rq, plan)
    requires RunAll(m, plan.steps, exit) == Ok(w)
    requires n in w.ran
    ensures && i < |plan.steps| && plan.steps[i].name == n && Known(m, n)
            && forall j | 0 <= j < i && plan.steps[j].name in ByName(m, n).value.needs ::
                 plan.steps[j].name in w.out && w.out[plan.steps[j].name] == 0
  {
    var steps := plan.steps;
    InstallsOnlyWhatIsMissing(m, mc, rows, rq, plan);
    forall i, j | 0 <= i < j < |steps| ensures steps[i].name != steps[j].name {
      assert Position(m, steps[i].name) < Position(m, steps[j].name);
    }
    EachStepOnce(m, steps, exit);
    var s := StepNamed(steps, n);
    i :| 0 <= i < |steps| && steps[i] == s;
    assert RanRight(m, steps, exit, w, i);
    forall j | 0 <= j < i ensures steps[j].name in w.out {
      assert steps[j] in steps;
    }
  }

  lemma {:induction false} NeedsRow(m: Manifest, n: Name, d: Name) returns (y: nat)
    requires GoodManifest(m) && Known(m, n) && d in ByName(m, n).value.needs
    ensures y < |m| && m[y].name == d
  {
    KnownAt(m, n);
    y := DependencyAt(m, Position(m, n), d);
  }

  // ---------------------------------------------------------------- from detection to the plan

  /** What was found of a tool: nothing, or something with a version that may be unreadable. */
  datatype Found = Absent | Present(version: Option<Version>)

  function StateOf(p: Prereq, need: Need, found: Found, embed: bool): State {
    if found.Present? then
      if p.check.least.Some? && p.check.probed && !p.check.kind.Cached? then
        if found.version == None then if p.check.kind.Cli? then Outdated else Good
        else if AtLeast(found.version.value, p.check.least.value) then Good else Outdated
      else Good
    else if need == Optional || (need == Default && !embed) then Off
    else Missing
  }

  function DetectAll(m: Manifest, mc: Machine, look: Name -> Found, embed: bool): (rows: seq<Status>)
    ensures Detected(m, mc, rows)
    ensures forall i | 0 <= i < |m| :: rows[i].state == StateOf(m[i], NeedOf(m[i], mc), look(m[i].name), embed)
  {
    seq(|m|, i requires 0 <= i < |m| =>
      Status(m[i].name, NeedOf(m[i], mc), StateOf(m[i], NeedOf(m[i], mc), look(m[i].name), embed)))
  }

  /** From detection to the plan: unless only some tools are asked for, every tool that is required here,
      and every one installed by default that the user did not opt out of, is good, planned or reported;
      and when no harness is good, one is planned or the default one is reported. */
  lemma {:induction false} NothingRequiredIsForgotten(m: Manifest, mc: Machine, look: Name -> Found, rq: Request, plan: Plan, i: nat)
    requires i < |m| && rq.only == [] && Planned(m, mc, DetectAll(m, mc, look, rq.embed), rq, plan)
    ensures var rows := DetectAll(m, mc, look, rq.embed);
            && (NeedOf(m[i], mc) == Required || (NeedOf(m[i], mc) == Default && rq.embed) ==>
                  rows[i].state == Good || m[i].name in Names(plan.steps) || rows[i] in plan.left)
            && (m[i].name == CLAUDE && !HarnessOk(rows) ==> CLAUDE in Names(plan.steps) || rows[i] in plan.left)
  {
    var rows := DetectAll(m, mc, look, rq.embed);
    EachRowOnce(m, mc, rows, rq, plan, i);
    RowIs(m, mc, rows, i);
    if !HarnessOk(rows) && m[i].name == CLAUDE {
      ClaudeLacks(m, mc, rows);
      assert CLAUDE in Asked(m, mc, rows, rq);
    } else if rows[i].state != Good && (NeedOf(m[i], mc) == Required || (NeedOf(m[i], mc) == Default && rq.embed)) {
      assert rows[i] in rows && Called(m, mc, rq, rows[i]);
      assert m[i].name in CalledNames(m, mc, rows, rq);
    }
  }

  // ---------------------------------------------------------------- installers without their needs

  /** However the installers end, one is started only when everything it needs is there already or was
      installed by an earlier step. */
  ghost predicate NeedsAlwaysMet(m: Manifest, rows: seq<Status>, plan: Plan) {
    forall exit: nat -> int | RunAll(m, plan.steps, exit).Ok? :: NeedsMet(m, rows, RunAll(m, plan.steps, exit).value)
  }

  ghost predicate NeedsMet(m: Manifest, rows: seq<Status>, w: Runs) {
    forall n, d | n in w.ran && Known(m, n) && d in ByName(m, n).value.needs :: NeedMet(rows, w, d)
  }

  predicate NeedMet(rows: seq<Status>, w: Runs, d: Name) {
    !Lacking(rows, d) || (d in w.out && w.out[d] == 0)
  }

  /** Whatever an installable wanted tool needs and is missing can be installed too. */
  ghost predicate NeedsRunnable(m: Manifest, mc: Machine, rows: seq<Status>, rq: Request)
    requires RowsKnown(m, rows)
  {
    forall i, d | 0 <= i < |m| && m[i].name in Wanted(m, mc, rows, rq) && CanInstall(m[i], mc) && d in m[i].needs && Lacking(rows, d) ::
      Runnable(m, mc, d)
  }

  /** Main result: of the three ways in which an installer finds its needs, the third, a need left to a
      person, is excluded if and only if the missing needs of every wanted installable tool are
      themselves installable. */
  lemma {:induction false} NeedsMetExactly(m: Manifest, mc: Machine, rows: seq<Status>, rq: Request, plan: Plan)
    requires Planned(m, mc, rows, rq, plan)
    ensures RowsKnown(m, rows)
    ensures NeedsAlwaysMet(m, rows, plan) <==> NeedsRunnable(m, mc, rows, rq)
  {
    DetectedRowsKnown(m, mc, rows);
    if NeedsRunnable(m, mc, rows, rq) {
      forall exit: nat -> int | RunAll(m, plan.steps, exit).Ok? ensures NeedsMet(m, rows, RunAll(m, plan.steps, exit).value) {
        RunnableNeedsMet(m, mc, rows, rq, plan, exit);
      }
    } else {
      var x, d :| 0 <= x < |m| && m[x].name in Wanted(m, mc, rows, rq) && CanInstall(m[x], mc) && d in m[x].needs
                  && Lacking(rows, d) && !Runnable(m, mc, d);
      StartedWithoutNeed(m, mc, rows, rq, plan, x, d);
    }
  }

  lemma {:induction false} RunnableNeedsMet(m: Manifest, mc: Machine, rows: seq<Status>, rq: Request, plan: Plan, exit: nat -> int)
    requires Planned(m, mc, rows, rq, plan) && RowsKnown(m, rows) && NeedsRunnable(m, mc, rows, rq)
    requires RunAll(m, plan.steps, exit).Ok?
    ensures NeedsMet(m, rows, RunAll(m, plan.steps, exit).value)
  {
    var w := RunAll(m, plan.steps, exit).value;
    forall n, d | n in w.ran && Known(m, n) && d in ByName(m, n).value.needs ensures NeedMet(rows, w, d) {
      InstallersFindTheirNeeds(m, mc, rows, rq, plan, exit, w, n, d);
      if Lacking(rows, d) && RowOf(rows, d).value in plan.left {
        var i := StartedStep(m, mc, rows, rq, plan, exit, w, n);
        StepIs(m, mc, rows, rq, plan, plan.steps[i]);
        LeftNeedIsNotRunnable(m, mc, rows, rq, plan, Position(m, n), d);
        assert false;
      }
    }
  }

  lemma {:induction false} LeftNeedIsNotRunnable(m: Manifest, mc: Machine, rows: seq<Status>, rq: Request, plan: Plan, x: nat, d: Name)
    requires Planned(m, mc, rows, rq, plan) && RowsKnown(m, rows)
    requires x < |m| && m[x].name in Wanted(m, mc, rows, rq) && CanInstall(m[x], mc) && d in m[x].needs && Lacking(rows, d)
    requires RowOf(rows, d).value in plan.left
    ensures !Runnable(m, mc, d)
  {
    NeedPlannedExactly(m, mc, rows, rq, plan, x, d);
    var y := DependencyAt(m, x, d);
    RowIs(m, mc, rows, y);
    EachRowOnce(m, mc, rows, rq, plan, y);
  }

  /** A missing need of a planned tool is planned exactly when it can be installed, and left otherwise. */
  lemma {:induction false} NeedPlannedExactly(m: Manifest, mc: Machine, rows: seq<Status>, rq: Request, plan: Plan, x: nat, d: Name)
    requires Planned(m, mc, rows, rq, plan) && RowsKnown(m, rows)
    requires x < |m| && m[x].name in Wanted(m, mc, rows, rq) && CanInstall(m[x], mc) && d in m[x].needs && Lacking(rows, d)
    ensures d in Names(plan.steps) <==> Runnable(m, mc, d)
    ensures d !in Names(plan.steps) ==> RowOf(rows, d).value in plan.left
  {
    var y := DependencyAt(m, x, d);
    NeedIsWanted(m, mc, rows, rq, x, d);
    WantedSplits(m, mc, rows, rq, plan, y);
    EachRowOnce(m, mc, rows, rq, plan, y);
    RowIs(m, mc, rows, y);
  }

  lemma {:induction false} NeedIsWanted(m: Manifest, mc: Machine, rows: seq<Status>, rq: Request, x: nat, d: Name)
    requires GoodManifest(m) && RowsKnown(m, rows)
    requires x < |m| && m[x].name in Wanted(m, mc, rows, rq) && CanInstall(m[x], mc) && d in m[x].needs && Lacking(rows, d)
    ensures d in Wanted(m, mc, rows, rq)
  {
    ByNameIs(m, x);
    assert d in Brought(m, mc, rows, m[x].name);
    WantedNeeds(m, mc, rows, rq, m[x].name, d);
  }

  /** Every installer ends in 0. */
  const ALL_ZERO: nat -> int := _ => 0

  /** When every installer ends in 0, every step whose recipe is no page is started and ends in 0. */
  lemma {:induction false} ZeroesStartAll(m: Manifest, steps: seq<Step>, w: Runs, k: nat)
    requires (forall s | s in steps :: Known(m, s.name) && s.recipe.manager != Url) && k <= |steps|
    requires Account(m, steps, ALL_ZERO, w)
    ensures forall i | 0 <= i < k :: steps[i].name in w.ran && steps[i].name in w.out && w.out[steps[i].name] == 0
  {
    if k > 0 {
      ZeroesStartAll(m, steps, w, k - 1);
      assert steps[k - 1] in steps;
      assert RanRight(m, steps, ALL_ZERO, w, k - 1);
    }
  }

  /** An installable wanted tool with a missing need that is not installable: with every installer
      ending in 0, it is started, and its need was never run but left to a person. */
  lemma {:induction false} StartedWithoutNeed(m: Manifest, mc: Machine, rows: seq<Status>, rq: Request, plan: Plan, x: nat, d: Name)
    requires Planned(m, mc, rows, rq, plan) && RowsKnown(m, rows)
    requires x < |m| && m[x].name in Wanted(m, mc, rows, rq) && CanInstall(m[x], mc) && d in m[x].needs
    requires Lacking(rows, d) && !Runnable(m, mc, d)
    ensures var r := RunAll(m, plan.steps, ALL_ZERO);
            && r.Ok? && m[x].name in r.value.ran && d !in r.value.out && RowOf(rows, d).value in plan.left
            && !NeedsMet(m, rows, r.value)
    ensures !NeedsAlwaysMet(m, rows, plan)
  {
    WantedSplits(m, mc, rows, rq, plan, x);
    NeedPlannedExactly(m, mc, rows, rq, plan, x, d);
    ByNameIs(m, x);
    PlannedRuns(m, mc, rows, rq, plan, ALL_ZERO);
    StartedAmong(m, rows, plan.steps, RunAll(m, plan.steps, ALL_ZERO).value, m[x].name, d);
  }

  lemma {:induction false} StartedAmong(m: Manifest, rows: seq<Status>, steps: seq<Step>, w: Runs, n: Name, d: Name)
    requires forall s | s in steps :: Known(m, s.name) && s.recipe.manager != Url
    requires Account(m, steps, ALL_ZERO, w)
    requires n in Names(steps) && d !in Names(steps) && d in ByName(m, n).value.needs && Lacking(rows, d)
    ensures n in w.ran && d !in w.out && !NeedsMet(m, rows, w)
  {
    ZeroesStartAll(m, steps, w, |steps|);
    var s := StepNamed(steps, n);
    assert Known(m, s.name);
    assert !NeedMet(rows, w, d);
  }

  lemma {:induction false} PlannedRuns(m: Manifest, mc: Machine, rows: seq<Status>, rq: Request, plan: Plan, exit: nat -> int)
    requires Planned(m, mc, rows, rq, plan)
    ensures forall s | s in plan.steps :: Known(m, s.name) && s.recipe.manager != Url
    ensures RunAll(m, plan.steps, exit).Ok? && Account(m, plan.steps, exit, RunAll(m, plan.steps, exit).value)
  {
    var steps := plan.steps;
    InstallsOnlyWhatIsMissing(m, mc, rows, rq, plan);
    forall i, j | 0 <= i < j < |steps| ensures steps[i].name != steps[j].name {
      assert Position(m, steps[i].name) < Position(m, steps[j].name);
    }
    EachStepOnce(m, steps, exit);
  }

  lemma {:induction false} CalledIsWanted(m: Manifest, mc: Machine, rows: seq<Status>, rq: Request, i: nat)
    requires Distinct(m) && Detected(m, mc, rows) && RowsKnown(m, rows) && i < |m|
    requires rows[i].state != Good && Called(m, mc, rq, rows[i])
    ensures m[i].name in Wanted(m, mc, rows, rq)
  {
    assert rows[i] in rows;
    assert rows[i].name in CalledNames(m, mc, rows, rq);
  }

  /** Where it happens with the shipped manifest: root on a Linux machine that has none of the tools and
      no package manager asks for codex.  npm counts as available, node has only a page to read. */
  lemma {:induction false} NeedMayBeLeft() returns (rows: seq<Status>, plan: Plan)
    ensures rows == DetectAll(MANIFEST, Machine(Linux, {}, false, true), _ => Absent, true)
    ensures Planned(MANIFEST, Machine(Linux, {}, false, true), rows, Request([], [Name("codex")], true), plan)
    ensures var r := RunAll(MANIFEST, plan.steps, ALL_ZERO);
            r.Ok? && Name("codex") in r.value.ran && Name("node") !in r.value.out
    ensures RowOf(rows, Name("node")).Some? && RowOf(rows, Name("node")).value in plan.left
  {
    var mc, rq := Machine(Linux, {}, false, true), Request([], [Name("codex")], true);
    ShippedManifestIsGood();
    ShippedRecipes();
    rows, plan := NeedNotFound(MANIFEST, mc, rq, _ => Absent, 4, 2);
  }

  lemma {:induction false} NeedNotFound(m: Manifest, mc: Machine, rq: Request, look: Name -> Found, x: nat, y: nat)
    returns (rows: seq<Status>, plan: Plan)
    requires GoodManifest(m) && x < |m| && y < |m|
    requires m[x].needs == [m[y].name] && CanInstall(m[x], mc) && !CanInstall(m[y], mc)
    requires rq.only == [] && m[x].name in rq.optional && look(m[x].name) == Absent == look(m[y].name)
    ensures rows == DetectAll(m, mc, look, rq.embed) && Planned(m, mc, rows, rq, plan)
    ensures var r := RunAll(m, plan.steps, ALL_ZERO); r.Ok? && m[x].name in r.value.ran && m[y].name !in r.value.out
    ensures RowOf(rows, m[y].name).Some? && RowOf(rows, m[y].name).value in plan.left
  {
    rows := DetectAll(m, mc, look, rq.embed);
    plan := PlanFor(m, mc, rows, rq);
    NeedLeft(m, mc, rows, rq, plan, x, y);
  }

  lemma {:induction false} PlanFor(m: Manifest, mc: Machine, rows: seq<Status>, rq: Request) returns (plan: Plan)
    requires GoodManifest(m) && Detected(m, mc, rows)
    ensures Planned(m, mc, rows, rq, plan)
  {
    PlanIs(m, mc, rows, rq);
    plan := PlanOf(m, mc, rows, rq).value;
  }

  lemma {:induction false} NeedLeft(m: Manifest, mc: Machine, rows: seq<Status>, rq: Request, plan: Plan, x: nat, y: nat)
    requires Planned(m, mc, rows, rq, plan) && x < |m| && y < |m|
    requires m[x].needs == [m[y].name] && CanInstall(m[x], mc) && !CanInstall(m[y], mc)
    requires rq.only == [] && m[x].name in rq.optional && rows[x].state != Good && rows[y].state != Good
    ensures var r := RunAll(m, plan.steps, ALL_ZERO); r.Ok? && m[x].name in r.value.ran && m[y].name !in r.value.out
    ensures RowOf(rows, m[y].name).Some? && RowOf(rows, m[y].name).value in plan.left
  {
    DetectedRowsKnown(m, mc, rows);
    RowIs(m, mc, rows, x);
    RowIs(m, mc, rows, y);
    CalledIsWanted(m, mc, rows, rq, x);
    StartedWithoutNeed(m, mc, rows, rq, plan, x, m[y].name);
  }

  lemma {:induction false} ShippedRecipes()
    ensures |MANIFEST| == 9
    ensures MANIFEST[2].name == Name("node") && MANIFEST[4].name == Name("codex") && MANIFEST[4].needs == [Name("node")]
    ensures var mc := Machine(Linux, {}, false, true); !CanInstall(MANIFEST[2], mc) && CanInstall(MANIFEST[4], mc)
  {
    var node, codex := RecipesOf(MANIFEST[2], Linux), RecipesOf(MANIFEST[4], Linux);
    assert |node| == 2 && node[0].manager == Apt && node[1].manager == Url;
    assert |codex| == 1 && codex[0].manager == Npm;
  }

  // ---------------------------------------------------------------- from the machine and the request to the plan

  /** The need of a tool on this install; the bundle brings its own uv. */
  predicate NeedIs(p: Prereq, mc: Machine, need: Need) {
    p.need == need && !(p.name == UV && mc.bundled)
  }

  /** What was found of the tool will do: it is there, and its version, where one is asked for, is not older
      than the least one.  A version that cannot be read will do for anything but a command. */
  ghost predicate Serves(p: Prereq, found: Found) {
    match found
    case Absent => false
    case Present(version) =>
      p.check.least.Some? && p.check.probed && p.check.kind != Cached ==>
        match version
        case None => p.check.kind == Module
        case Some(v) => !Older(v, p.check.least.value)
  }

  /** Some harness that is there will do. */
  ghost predicate HarnessServes(m: Manifest, mc: Machine, look: Name -> Found) {
    exists i | 0 <= i < |m| && NeedIs(m[i], mc, Harness) :: Serves(m[i], look(m[i].name))
  }

  /** The user, or the defaults, ask for the tool. */
  ghost predicate AskedFor(m: Manifest, mc: Machine, look: Name -> Found, rq: Request, x: nat)
    requires x < |m|
  {
    if rq.only != [] then m[x].name in rq.only
    else
      || NeedIs(m[x], mc, Required)
      || (NeedIs(m[x], mc, Default) && rq.embed)
      || m[x].name in rq.optional
      || (m[x].name == CLAUDE && !HarnessServes(m, mc, look))
  }

  /** Asked for, or needed by a missing tool that is asked for and can be installed. */
  ghost predicate WantedHere(m: Manifest, mc: Machine, look: Name -> Found, rq: Request, x: nat)
    requires x < |m|
  {
    || AskedFor(m, mc, look, rq, x)
    || exists y | 0 <= y < |m| && m[x].name in m[y].needs ::
         AskedFor(m, mc, look, rq, y) && !Serves(m[y], look(m[y].name)) && CanInstall(m[y], mc)
  }

  lemma {:induction false} FoundIs(m: Manifest, mc: Machine, look: Name -> Found, embed: bool, x: nat)
    requires x < |m|
    ensures var r := DetectAll(m, mc, look, embed)[x];
            && (r.state == Good <==> Serves(m[x], look(m[x].name)))
            && (r.state == Off <==>
                  look(m[x].name) == Absent
                  && !NeedIs(m[x], mc, Required) && !NeedIs(m[x], mc, Harness) && !(NeedIs(m[x], mc, Default) && embed))
  {
    var found := look(m[x].name);
    if found.Present? && found.version.Some? && m[x].check.least.Some? {
      AtLeastIs(found.version.value, m[x].check.least.value);
    }
  }

  lemma {:induction false} HarnessIs(m: Manifest, mc: Machine, look: Name -> Found, embed: bool)
    ensures HarnessOk(DetectAll(m, mc, look, embed)) <==> HarnessServes(m, mc, look)
  {
    var rows := DetectAll(m, mc, look, embed);
    forall i | 0 <= i < |m|
      ensures rows[i] in rows && (rows[i].need == Harness && rows[i].state == Good <==> NeedIs(m[i], mc, Harness) && Serves(m[i], look(m[i].name)))
    {
      FoundIs(m, mc, look, embed, i);
    }
  }

  lemma {:induction false} AskedIs(m: Manifest, mc: Machine, look: Name -> Found, rq: Request, x: nat)
    requires GoodManifest(m) && x < |m| && RowsKnown(m, DetectAll(m, mc, look, rq.embed))
    ensures var rows := DetectAll(m, mc, look, rq.embed);
            m[x].name in Asked(m, mc, rows, rq) <==> AskedFor(m, mc, look, rq, x) && !Serves(m[x], look(m[x].name))
  {
    var rows := DetectAll(m, mc, look, rq.embed);
    FoundIs(m, mc, look, rq.embed, x);
    HarnessIs(m, mc, look, rq.embed);
    RowCalls(m, mc, rows, rq, x);
    if m[x].name == CLAUDE && WantsHarness(rows, rq) {
      DefaultLacks(m, mc, rows, x);
    }
  }

  lemma {:induction false} DefaultLacks(m: Manifest, mc: Machine, rows: seq<Status>, x: nat)
    requires GoodManifest(m) && Detected(m, mc, rows) && !HarnessOk(rows) && x < |m| && m[x].name == CLAUDE
    ensures rows[x].state != Good
  {
    ClaudeLacks(m, mc, rows);
    RowIs(m, mc, rows, x);
  }

  /** When a tool's row calls it, from its need and the request. */
  lemma {:induction false} RowCalls(m: Manifest, mc: Machine, rows: seq<Status>, rq: Request, x: nat)
    requires Distinct(m) && Detected(m, mc, rows) && RowsKnown(m, rows) && x < |m|
    ensures m[x].name in CalledNames(m, mc, rows, rq) <==>
              rows[x].state != Good &&
              if rq.only != [] then m[x].name in rq.only
              else NeedIs(m[x], mc, Required) || (NeedIs(m[x], mc, Default) && rq.embed) || m[x].name in rq.optional
  {
    CalledIs(m, mc, rows, rq, x);
    ByNameIs(m, x);
  }

  /** Only the tool's own row can call it. */
  lemma {:induction false} CalledIs(m: Manifest, mc: Machine, rows: seq<Status>, rq: Request, x: nat)
    requires Distinct(m) && Detected(m, mc, rows) && RowsKnown(m, rows) && x < |m|
    ensures m[x].name in CalledNames(m, mc, rows, rq) <==> rows[x].state != Good && Called(m, mc, rq, rows[x])
  {
    RowIs(m, mc, rows, x);
    assert rows[x] in rows;
    if m[x].name in CalledNames(m, mc, rows, rq) {
      var r :| r in rows && r.state != Good && Called(m, mc, rq, r) && r.name == m[x].name;
      RowIsKnown(m, mc, rows, r);
    }
  }

  lemma {:induction false} BroughtIs(m: Manifest, mc: Machine, rows: seq<Status>, x: nat, y: nat)
    requires Distinct(m) && Detected(m, mc, rows) && x < |m| && y < |m|
    ensures m[x].name in Brought(m, mc, rows, m[y].name) <==> CanInstall(m[y], mc) && m[x].name in m[y].needs && rows[x].state != Good
  {
    ByNameIs(m, y);
    RowIs(m, mc, rows, x);
  }

  lemma {:induction false} WantedHereIs(m: Manifest, mc: Machine, look: Name -> Found, rq: Request, x: nat)
    requires GoodManifest(m) && x < |m| && RowsKnown(m, DetectAll(m, mc, look, rq.embed))
    ensures var rows := DetectAll(m, mc, look, rq.embed);
            m[x].name in Wanted(m, mc, rows, rq) <==> WantedHere(m, mc, look, rq, x) && !Serves(m[x], look(m[x].name))
  {
    var rows := DetectAll(m, mc, look, rq.embed);
    AskedIs(m, mc, look, rq, x);
    FoundIs(m, mc, look, rq.embed, x);
    if m[x].name in Wanted(m, mc, rows, rq) && m[x].name !in Asked(m, mc, rows, rq) {
      var a :| a in Asked(m, mc, rows, rq) && m[x].name in Brought(m, mc, rows, a);
      KnownAt(m, a);
      var y := Position(m, a);
      AskedIs(m, mc, look, rq, y);
      BroughtIs(m, mc, rows, x, y);
    }
    if y :| 0 <= y < |m| && m[x].name in m[y].needs && AskedFor(m, mc, look, rq, y) && !Serves(m[y], look(m[y].name)) && CanInstall(m[y], mc) {
      AskedIs(m, mc, look, rq, y);
      BroughtIs(m, mc, rows, x, y);
    }
  }

  /** Main result, from what is found on the machine and what is asked for to the plan: a tool is installed
      if and only if it does not do, can be installed, and is asked for or needed by such a tool. */
  lemma {:induction false} StepsExactly(m: Manifest, mc: Machine, look: Name -> Found, rq: Request, plan: Plan, x: nat)
    requires x < |m| && Planned(m, mc, DetectAll(m, mc, look, rq.embed), rq, plan)
    ensures m[x].name in Names(plan.steps) <==>
              !Serves(m[x], look(m[x].name)) && CanInstall(m[x], mc) && WantedHere(m, mc, look, rq, x)
  {
    var rows := DetectAll(m, mc, look, rq.embed);
    WantedSplits(m, mc, rows, rq, plan, x);
    WantedHereIs(m, mc, look, rq, x);
  }

  /** A harness that does is there, or one is installed. */
  ghost predicate HarnessCovered(m: Manifest, mc: Machine, look: Name -> Found, plan: Plan) {
    HarnessServes(m, mc, look) || exists y | 0 <= y < |m| && m[y].need == Harness :: m[y].name in Names(plan.steps)
  }

  lemma {:induction false} CoveredIs(m: Manifest, mc: Machine, look: Name -> Found, rq: Request, plan: Plan)
    requires Planned(m, mc, DetectAll(m, mc, look, rq.embed), rq, plan)
    ensures Covered(m, DetectAll(m, mc, look, rq.embed), Names(plan.steps)) <==> HarnessCovered(m, mc, look, plan)
  {
    HarnessIs(m, mc, look, rq.embed);
    forall y | 0 <= y < |m| ensures ByName(m, m[y].name) == Some(m[y]) {
      ByNameIs(m, y);
    }
    forall n | n in Names(plan.steps) && Known(m, n) ensures Position(m, n) < |m| && ByName(m, n) == Some(m[Position(m, n)]) {
      KnownAt(m, n);
    }
  }

  /** And a tool that does not do is left to a person if and only if it is not installed, and either is
      wanted, or is neither optional here nor a harness where one is there or comes, nor an embedder that was
      opted out of. */
  lemma {:induction false} LeftExactly(m: Manifest, mc: Machine, look: Name -> Found, rq: Request, plan: Plan, x: nat)
    requires x < |m| && Planned(m, mc, DetectAll(m, mc, look, rq.embed), rq, plan)
    ensures var found := look(m[x].name);
            DetectAll(m, mc, look, rq.embed)[x] in plan.left <==>
              && !Serves(m[x], found) && m[x].name !in Names(plan.steps)
              && (|| WantedHere(m, mc, look, rq, x)
                  || NeedIs(m[x], mc, Required)
                  || (NeedIs(m[x], mc, Harness) && !HarnessCovered(m, mc, look, plan))
                  || (NeedIs(m[x], mc, Default) && rq.embed)
                  || (found.Present? && !NeedIs(m[x], mc, Harness) && !NeedIs(m[x], mc, Default)))
  {
    var rows := DetectAll(m, mc, look, rq.embed);
    EachRowOnce(m, mc, rows, rq, plan, x);
    WantedHereIs(m, mc, look, rq, x);
    FoundIs(m, mc, look, rq.embed, x);
    CoveredIs(m, mc, look, rq, plan);
  }

  lemma {:induction false} FirstDecides(p: Prereq, mc: Machine, r: Recipe)
    requires var rs := RecipesOf(p, mc.os); rs != [] && rs[0] == r && forall i | 0 < i < |rs| :: rs[i].manager == Url
    ensures CanInstall(p, mc) <==> Usable(r, mc)
  {
    NoneUsable(RecipesOf(p, mc.os), mc);
  }

  lemma {:induction false} NothingFor(p: Prereq, mc: Machine)
    requires RecipesOf(p, mc.os) == []
    ensures !CanInstall(p, mc)
  {
  }

  /** The installer of each shipped tool: 0 uv, 1 git, 2 node, 3 claude, 4 codex, 5 pi, 6 tailscale,
      7 the embedder, 8 its model. */
  lemma {:induction false} ShippedInstallers(os: Os, i: nat)
    requires i < 9
    ensures |MANIFEST| == 9
    ensures os == OtherOs ==> RecipesOf(MANIFEST[i], os) == []
    ensures os != OtherOs ==>
              var rs := RecipesOf(MANIFEST[i], os);
              rs != [] && rs[0].manager == FirstManager(os, i) && forall k | 0 < k < |rs| :: rs[k].manager == Url
  {
    if i < 4 {
      OwnInstallers(os, i);
    } else if i == 6 {
      OwnInstallers(os, i);
    } else {
      CommonInstallers(os, i);
    }
  }

  function FirstManager(os: Os, i: nat): Manager {
    if i == 4 || i == 5 then Npm
    else if i == 7 then Pip
    else if i == 8 then Model
    else if os == Win32 then Winget
    else if os == Darwin then Brew
    else if i == 1 || i == 2 then Apt
    else Script
  }

  lemma {:induction false} OwnInstallers(os: Os, i: nat)
    requires i < 4 || i == 6
    ensures |MANIFEST| == 9
    ensures os == OtherOs ==> RecipesOf(MANIFEST[i], os) == []
    ensures os != OtherOs ==>
              var rs := RecipesOf(MANIFEST[i], os);
              rs != [] && rs[0].manager == FirstManager(os, i) && forall k | 0 < k < |rs| :: rs[k].manager == Url
  {
  }

  lemma {:induction false} CommonInstallers(os: Os, i: nat)
    requires i in {4, 5, 7, 8}
    ensures |MANIFEST| == 9
    ensures os == OtherOs ==> RecipesOf(MANIFEST[i], os) == []
    ensures os != OtherOs ==> |RecipesOf(MANIFEST[i], os)| == 1 && RecipesOf(MANIFEST[i], os)[0].manager == FirstManager(os, i)
  {
  }

  /** Which shipped tools can be installed on which machine: what comes with npm and the model on every known
      system, the embedder outside the bundle, and the others with the system's own installer, on Linux
      `apt-get` as root or with sudo for git and node, and curl for the rest. */
  lemma {:induction false} ShippedInstallableExactly(mc: Machine, i: nat)
    requires i < 9
    ensures |MANIFEST| == 9
    ensures CanInstall(MANIFEST[i], mc) <==>
              match mc.os
              case OtherOs => false
              case _ =>
                || i == 4 || i == 5 || i == 8
                || (i == 7 && !mc.bundled)
                || ((i < 4 || i == 6) &&
                      match mc.os
                      case Win32 => "winget" in mc.tools
                      case Darwin => "brew" in mc.tools
                      case _ =>
                        if i == 1 || i == 2 then "apt-get" in mc.tools && (mc.root || "sudo" in mc.tools) else "curl" in mc.tools)
  {
    ShippedInstallers(mc.os, i);
    if mc.os == OtherOs {
      NothingFor(MANIFEST[i], mc);
    } else {
      FirstDecides(MANIFEST[i], mc, RecipesOf(MANIFEST[i], mc.os)[0]);
    }
  }
}
