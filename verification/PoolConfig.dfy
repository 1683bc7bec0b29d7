/**
  Merging an upgraded settings template into an owner's settings file.  `Settings.Merge` changes the
  file's dictionary step by step, as the code does; `Merged` is the same merge as a function of the
  two files, and the lemmas say what the owner is promised about it.
 */
module PoolConfig {
  import opened Options
  import opened Sets

  /** JSON as the merge sees it; a scalar carries its text. */
  datatype Json = Null | Str(text: string) | Scalar(text: string) | Arr(items: seq<Json>) | Obj(fields: map<string, Json>)

  type Dict = map<string, Json>

  /** One matcher group of the template: always an object with a list of hooks. */
  datatype Group = Group(matcher: Option<Json>, hooks: seq<Json>)

  /** The shipped template: its top-level keys besides `hooks`, and the groups of each hook event. */
  datatype Template = Template(top: Dict, events: map<string, seq<Group>>)

  datatype Error = BadHooks

  /** Keys an older template pinned that are dropped on upgrade. */
  const RETIRED_KEYS := {"effortLevel"}

  // ---------------------------------------------------------------- hooks

  /** The part after the first quoted word and a blank: `"<python>" <rest>` gives `<rest>`. */
  function HookTail(command: string): string {
    if |command| > 0 && command[0] == '"' then
      match AfterQuote(command)
      case Some(rest) => rest
      case None => command
    else command
  }

  /** What follows the first `" ` of a text. */
  function AfterQuote(s: string): Option<string> {
    if |s| < 2 then None
    else if s[0] == '"' && s[1] == ' ' then Some(s[2..])
    else AfterQuote(s[1..])
  }

  function Lookup(d: Dict, k: string): Option<Json> {
    if k in d then Some(d[k]) else None
  }

  /** What hooks are compared by: the printed text of a command without its interpreter, or a command
      value that is not a text. */
  datatype Tail = Bare(text: string) | Value(j: Json)

  function TailOf(hook: Json): Tail {
    match if hook.Obj? then Lookup(hook.fields, "command") else None
    case None => Bare(HookTail(""))
    case Some(Null) => Bare(HookTail("None"))
    case Some(Str(t)) => Bare(HookTail(t))
    case Some(Scalar(t)) => Bare(HookTail(t))
    case Some(j) => Value(j)
  }

  /** The tails of the hooks of a list; entries that are not objects have none. */
  function Tails(hooks: seq<Json>): set<Tail> {
    set h | h in hooks && h.Obj? :: TailOf(h)
  }

  /** `get("matcher")`: an absent matcher and a null one are the same. */
  function MatcherOf(fields: Dict): Option<Json> {
    if "matcher" in fields && fields["matcher"] != Null then Some(fields["matcher"]) else None
  }

  predicate Matches(entry: Json, g: Group) {
    entry.Obj? && MatcherOf(entry.fields) == g.matcher
  }

  /** The position of the first entry for the group, or the length of the list. */
  function FirstMatch(have: seq<Json>, g: Group): (i: nat)
    ensures i <= |have|
    ensures i < |have| ==> Matches(have[i], g)
    ensures forall j | 0 <= j < i :: !Matches(have[j], g)
  {
    if have == [] || Matches(have[0], g) then 0 else 1 + FirstMatch(have[1..], g)
  }

  /** The template's group as the object that is appended. */
  function Whole(g: Group): Json {
    Obj((if g.matcher.Some? then map["matcher" := g.matcher.value] else map[]) + map["hooks" := Arr(g.hooks)])
  }

  /** The hooks of `hooks` whose tail is not among `tails`, in order. */
  function Missing(hooks: seq<Json>, tails: set<Tail>): seq<Json> {
    if hooks == [] then []
    else
      var h := hooks[|hooks| - 1];
      Missing(hooks[..|hooks| - 1], tails) + if TailOf(h) in tails then [] else [h]
  }

  /** The owner's hook list of an entry: absent counts as empty, and anything that is not a list
      breaks the loop over it or the append to it. */
  function HooksOf(entry: Json): Option<Json>
    requires entry.Obj?
  {
    Lookup(entry.fields, "hooks")
  }

  /** The entry with the template's missing hooks added. */
  function Extended(entry: Json, g: Group): Result<Json, Error>
    requires entry.Obj?
  {
    match HooksOf(entry)
    case None =>
      if g.hooks == [] then Ok(entry) else Ok(Obj(entry.fields["hooks" := Arr(g.hooks)]))
    case Some(Arr(own)) =>
      var more := Missing(g.hooks, Tails(own));
      if more == [] then Ok(entry) else Ok(Obj(entry.fields["hooks" := Arr(own + more)]))
    case Some(Scalar(_)) => Raised(BadHooks)
    case Some(Null) => Raised(BadHooks)
    case Some(_) => if g.hooks == [] then Ok(entry) else Raised(BadHooks)
  }

  predicate WellFormed(g: Group) {
    g.matcher != Some(Null) && forall h | h in g.hooks :: h.Obj?
  }

  // ---------------------------------------------------------------- groups

  function MergeGroup(have: seq<Json>, g: Group): Result<seq<Json>, Error> {
    var i := FirstMatch(have, g);
    if i == |have| then Ok(have + [Whole(g)])
    else match Extended(have[i], g)
      case Ok(entry) => Ok(have[i := entry])
      case Raised(e) => Raised(e)
  }

  function MergeGroups(have: seq<Json>, gs: seq<Group>): Result<seq<Json>, Error> {
    if gs == [] then Ok(have)
    else match MergeGroups(have, gs[..|gs| - 1])
      case Ok(done) => MergeGroup(done, gs[|gs| - 1])
      case Raised(e) => Raised(e)
  }

  /** The list already holds the group and all its hooks. */
  predicate Satisfied(have: seq<Json>, g: Group) {
    var i := FirstMatch(have, g);
    i < |have| && Extended(have[i], g) == Ok(have[i])
  }

  predicate AllSatisfied(have: seq<Json>, gs: seq<Group>) {
    forall k | 0 <= k < |gs| :: Satisfied(have, gs[k])
  }

  lemma {:induction false} MissingCovers(hooks: seq<Json>, tails: set<Tail>)
    ensures forall h | h in hooks :: TailOf(h) in tails || h in Missing(hooks, tails)
    ensures forall h | h in Missing(hooks, tails) :: h in hooks && TailOf(h) !in tails
  {
    if hooks != [] {
      var front, last := hooks[..|hooks| - 1], hooks[|hooks| - 1];
      assert hooks == front + [last];
      MissingCovers(front, tails);
    }
  }

  lemma {:induction false} MissingNone(hooks: seq<Json>, tails: set<Tail>)
    ensures Missing(hooks, tails) == [] <==> forall h | h in hooks :: TailOf(h) in tails
  {
    MissingCovers(hooks, tails);
    if Missing(hooks, tails) != [] {
      assert Missing(hooks, tails)[0] in Missing(hooks, tails);
    }
  }

  lemma {:induction false} FirstMatchIs(have: seq<Json>, g: Group, i: nat)
    requires i <= |have| && (i < |have| ==> Matches(have[i], g))
    requires forall j | 0 <= j < i :: !Matches(have[j], g)
    ensures FirstMatch(have, g) == i
  {
    if i > 0 {
      FirstMatchIs(have[1..], g, i - 1);
    }
  }

  /** An extended entry still matches what it matched, and only its hook list changed, at the end. */
  lemma {:induction false} ExtendedKeeps(entry: Json, g: Group)
    requires entry.Obj? && Extended(entry, g).Ok?
    ensures var e := Extended(entry, g).value;
            Grown(entry, e) && MatcherOf(e.fields) == MatcherOf(entry.fields)
  {
    var e := Extended(entry, g).value;
    if HooksOf(entry).Some? && HooksOf(entry).value.Arr? && e != entry {
      var own := HooksOf(entry).value.items;
      assert own <= own + Missing(g.hooks, Tails(own));
    }
  }

  /** `b` is `a`, or `a` with hooks added after its own. */
  ghost predicate Grown(a: Json, b: Json) {
    a == b || (
      && a.Obj? && b.Obj?
      && "hooks" in b.fields && b.fields["hooks"].Arr?
      && (forall k | k != "hooks" :: Lookup(b.fields, k) == Lookup(a.fields, k))
      && (if "hooks" in a.fields then a.fields["hooks"].Arr? && a.fields["hooks"].items <= b.fields["hooks"].items else true))
  }

  lemma {:induction false} ExtendedTwice(entry: Json, g: Group)
    requires entry.Obj? && Extended(entry, g).Ok? && WellFormed(g)
    ensures Extended(Extended(entry, g).value, g) == Extended(entry, g)
  {
    var e := Extended(entry, g).value;
    match HooksOf(entry)
    case None =>
      if g.hooks != [] {
        MissingNone(g.hooks, Tails(g.hooks));
      }
    case Some(Arr(own)) =>
      var more := Missing(g.hooks, Tails(own));
      MissingCovers(g.hooks, Tails(own));
      MissingNone(g.hooks, Tails(own + more));
      assert forall h | h in own :: h in own + more;
      assert forall h | h in more :: h in own + more;
      assert Missing(g.hooks, Tails(own + more)) == [];
    case Some(_) =>
  }

  /** Adding another group's hooks does not make a complete entry incomplete. */
  lemma {:induction false} ExtendedStaysComplete(entry: Json, g: Group, other: Group)
    requires entry.Obj? && Extended(entry, g) == Ok(entry) && Extended(entry, other).Ok? && WellFormed(other)
    ensures var e := Extended(entry, other).value; Extended(e, g) == Ok(e)
  {
    var e := Extended(entry, other).value;
    match HooksOf(entry)
    case None =>
      assert "hooks" in entry.fields["hooks" := Arr(g.hooks)];
      assert g.hooks == [];
      MissingNone(g.hooks, Tails(other.hooks));
    case Some(Arr(own)) =>
      var more := Missing(other.hooks, Tails(own));
      CompleteMeansNone(entry, g, own);
      MissingNone(g.hooks, Tails(own));
      MissingNone(g.hooks, Tails(own + more));
      assert forall h | h in own :: h in own + more;
      assert forall h | h in g.hooks :: TailOf(h) in Tails(own + more);
    case Some(_) =>
  }

  lemma {:induction false} CompleteMeansNone(entry: Json, g: Group, own: seq<Json>)
    requires entry.Obj? && HooksOf(entry) == Some(Arr(own)) && Extended(entry, g) == Ok(entry)
    ensures Missing(g.hooks, Tails(own)) == []
  {
    var more := Missing(g.hooks, Tails(own));
    assert entry.fields["hooks" := Arr(own + more)]["hooks"].items == own + more;
    assert |own + more| == |own| + |more|;
  }

  lemma {:induction false} MergeGroupSatisfies(have: seq<Json>, g: Group)
    requires WellFormed(g) && MergeGroup(have, g).Ok?
    ensures Satisfied(MergeGroup(have, g).value, g)
  {
    var i, done := FirstMatch(have, g), MergeGroup(have, g).value;
    if i == |have| {
      var w := Whole(g);
      assert MatcherOf(w.fields) == g.matcher;
      FirstMatchIs(done, g, i);
      MissingNone(g.hooks, Tails(g.hooks));
      assert Extended(w, g) == Ok(w);
    } else {
      ExtendedKeeps(have[i], g);
      ExtendedTwice(have[i], g);
      FirstMatchIs(done, g, i);
    }
  }

  lemma {:induction false} MergeGroupKeepsSatisfied(have: seq<Json>, g: Group, other: Group)
    requires Satisfied(have, g) && WellFormed(other) && MergeGroup(have, other).Ok?
    ensures Satisfied(MergeGroup(have, other).value, g)
  {
    var i, j, done := FirstMatch(have, g), FirstMatch(have, other), MergeGroup(have, other).value;
    if j < |have| {
      ExtendedKeeps(have[j], other);
    }
    FirstMatchIs(done, g, i);
    if i == j {
      ExtendedStaysComplete(have[i], g, other);
    }
  }

  lemma {:induction false} SatisfiedMergesToItself(have: seq<Json>, g: Group)
    requires Satisfied(have, g)
    ensures MergeGroup(have, g) == Ok(have)
  {
    var i := FirstMatch(have, g);
    assert have[i := have[i]] == have;
  }

  lemma {:induction false} MergeGroupsSatisfies(have: seq<Json>, gs: seq<Group>)
    requires (forall g | g in gs :: WellFormed(g)) && MergeGroups(have, gs).Ok?
    ensures AllSatisfied(MergeGroups(have, gs).value, gs)
  {
    if gs != [] {
      var front, g := gs[..|gs| - 1], gs[|gs| - 1];
      assert gs == front + [g] && g in gs;
      forall x | x in front ensures WellFormed(x) {
        assert x in gs;
      }
      MergeGroupsSatisfies(have, front);
      MergeNextSatisfies(MergeGroups(have, front).value, front, g);
    }
  }

  lemma {:induction false} MergeNextSatisfies(done: seq<Json>, front: seq<Group>, g: Group)
    requires AllSatisfied(done, front) && WellFormed(g) && MergeGroup(done, g).Ok?
    ensures AllSatisfied(MergeGroup(done, g).value, front + [g])
  {
    MergeGroupSatisfies(done, g);
    forall k | 0 <= k < |front| ensures Satisfied(MergeGroup(done, g).value, front[k]) {
      MergeGroupKeepsSatisfied(done, front[k], g);
    }
  }

  lemma {:induction false} SatisfiedGroupsMergeToThemselves(have: seq<Json>, gs: seq<Group>)
    requires AllSatisfied(have, gs)
    ensures MergeGroups(have, gs) == Ok(have)
  {
    if gs != [] {
      var front := gs[..|gs| - 1];
      assert forall k | 0 <= k < |front| :: front[k] == gs[k];
      SatisfiedGroupsMergeToThemselves(have, front);
      SatisfiedMergesToItself(have, gs[|gs| - 1]);
    }
  }

  lemma {:induction false} GrownTransitive(a: Json, b: Json, c: Json)
    requires Grown(a, b) && Grown(b, c)
    ensures Grown(a, c)
  {
  }

  /** Every old group keeps its place and its own hooks come first; new groups come after. */
  lemma {:induction false} MergeGroupsGrow(have: seq<Json>, gs: seq<Group>)
    requires MergeGroups(have, gs).Ok?
    ensures var done := MergeGroups(have, gs).value;
            |have| <= |done| && forall i | 0 <= i < |have| :: Grown(have[i], done[i])
  {
    if gs != [] {
      var front, g := gs[..|gs| - 1], gs[|gs| - 1];
      MergeGroupsGrow(have, front);
      var mid := MergeGroups(have, front).value;
      var j, done := FirstMatch(mid, g), MergeGroup(mid, g).value;
      if j < |mid| {
        ExtendedKeeps(mid[j], g);
      }
      forall i | 0 <= i < |have| ensures Grown(have[i], done[i]) {
        assert Grown(mid[i], done[i]);
        GrownTransitive(have[i], mid[i], done[i]);
      }
    }
  }

  // ---------------------------------------------------------------- the whole file

  /** What the hook list of one event becomes; a value that is not a list is left alone. */
  function MergeEvent(have: Option<Json>, gs: seq<Group>): Result<Json, Error> {
    match have
    case None => if MergeGroups([], gs).Ok? then Ok(Arr(MergeGroups([], gs).value)) else Raised(BadHooks)
    case Some(Arr(items)) => if MergeGroups(items, gs).Ok? then Ok(Arr(MergeGroups(items, gs).value)) else Raised(BadHooks)
    case Some(other) => Ok(other)
  }

  predicate Breaks(hooks: Dict, t: Template) {
    exists e | e in t.events :: MergeEvent(Lookup(hooks, e), t.events[e]).Raised?
  }

  /** Dropped: retired, present, and not in the template. */
  function Dropped(current: Dict, t: Template): set<string> {
    set k | k in RETIRED_KEYS && k in current && k !in t.top
  }

  function MergedTop(current: Dict, t: Template): Dict {
    var kept := current - Dropped(current, t);
    kept + map k | k in t.top && k !in kept :: t.top[k]
  }

  function MergedHooks(hooks: Dict, t: Template): Dict
    requires !Breaks(hooks, t)
  {
    hooks + map e | e in t.events :: MergeEvent(Lookup(hooks, e), t.events[e]).value
  }

  function HooksPart(current: Dict): Json {
    if "hooks" in current then current["hooks"] else Obj(map[])
  }

  /** The merged file, or the exception. */
  function Merged(current: Dict, t: Template): Result<Dict, Error> {
    var top := MergedTop(current, t);
    var part := HooksPart(top);
    if !part.Obj? then Ok(top)
    else if Breaks(part.fields, t) then Raised(BadHooks)
    else Ok(top["hooks" := Obj(MergedHooks(part.fields, t))])
  }

  predicate GoodTemplate(t: Template) {
    "hooks" !in t.top && forall e | e in t.events :: forall g | g in t.events[e] :: WellFormed(g)
  }

  /** One event needs nothing: it is not a list, or every group of the template is satisfied. */
  predicate EventDone(have: Option<Json>, gs: seq<Group>) {
    match have
    case None => gs == []
    case Some(Arr(items)) => AllSatisfied(items, gs)
    case Some(_) => true
  }

  /** The merge has nothing to report. */
  predicate UpToDate(current: Dict, t: Template) {
    && Dropped(current, t) == {}
    && (forall k | k in t.top :: k in current)
    && (HooksPart(current).Obj? ==> EventsDone(HooksPart(current).fields, t, t.events.Keys))
  }

  // ---------------------------------------------------------------- promises

  lemma {:induction false} MergeEventDone(have: Option<Json>, gs: seq<Group>)
    requires (forall g | g in gs :: WellFormed(g)) && MergeEvent(have, gs).Ok?
    ensures var j := MergeEvent(have, gs).value;
            EventDone(Some(j), gs) && MergeEvent(Some(j), gs) == Ok(j)
  {
    var items := match have case Some(Arr(items)) => items case _ => [];
    if have == None || have.value.Arr? {
      MergeGroupsSatisfies(items, gs);
      SatisfiedGroupsMergeToThemselves(MergeGroups(items, gs).value, gs);
    }
  }

  lemma {:induction false} MergeHooksIdempotent(hooks: Dict, t: Template)
    requires GoodTemplate(t) && !Breaks(hooks, t)
    ensures var after := MergedHooks(hooks, t);
            && !Breaks(after, t) && MergedHooks(after, t) == after
            && forall e | e in t.events :: EventDone(Lookup(after, e), t.events[e])
  {
    var after := MergedHooks(hooks, t);
    forall e | e in t.events
      ensures EventDone(Lookup(after, e), t.events[e]) && MergeEvent(Lookup(after, e), t.events[e]) == Ok(after[e])
    {
      MergeEventDone(Lookup(hooks, e), t.events[e]);
    }
  }

  lemma {:induction false} MergedTopTwice(current: Dict, t: Template)
    ensures var top := MergedTop(current, t);
            MergedTop(top, t) == top && Dropped(top, t) == {} && forall k | k in t.top :: k in top
  {
    var top := MergedTop(current, t);
    assert Dropped(top, t) == {};
    assert top - {} == top;
  }

  /** Main result: after a merge there is nothing left to merge; a second merge reports nothing and
      changes nothing. */
  lemma {:induction false} MergeIdempotent(current: Dict, t: Template)
    requires GoodTemplate(t) && Merged(current, t).Ok?
    ensures var once := Merged(current, t).value;
            UpToDate(once, t) && Merged(once, t) == Ok(once)
  {
    var top, once := MergedTop(current, t), Merged(current, t).value;
    MergedTopTwice(current, t);
    if HooksPart(top).Obj? {
      WithHooksIdempotent(top, HooksPart(top).fields, t);
    }
  }

  lemma {:induction false} WithHooksIdempotent(top: Dict, hooks: Dict, t: Template)
    requires GoodTemplate(t) && !Breaks(hooks, t)
    requires MergedTop(top, t) == top && Dropped(top, t) == {} && forall k | k in t.top :: k in top
    ensures var once := top["hooks" := Obj(MergedHooks(hooks, t))];
            UpToDate(once, t) && Merged(once, t) == Ok(once)
  {
    var after := MergedHooks(hooks, t);
    var once := top["hooks" := Obj(after)];
    MergeHooksIdempotent(hooks, t);
    assert HooksPart(once) == Obj(after);
    assert Dropped(once, t) == {};
    assert once - {} == once;
    assert MergedTop(once, t) == once;
    assert once["hooks" := Obj(after)] == once;
  }

  /** When there is nothing to report, the merge at most adds empty places for hooks. */
  lemma {:induction false} UpToDateMergesToItself(current: Dict, t: Template)
    requires UpToDate(current, t)
    ensures Merged(current, t).Ok?
    ensures var m := Merged(current, t).value;
            && (forall k | k in current && k != "hooks" :: k in m && m[k] == current[k])
            && (forall k | k in m && k != "hooks" :: k in current)
            && (HooksPart(current).Obj? ==> HooksPart(m).Obj? && forall e ::
                  Lookup(HooksPart(m).fields, e) == Lookup(HooksPart(current).fields, e)
                  || (e !in HooksPart(current).fields && Lookup(HooksPart(m).fields, e) == Some(Arr([]))))
            && (!HooksPart(current).Obj? ==> m == current)
  {
    assert MergedTop(current, t) == current;
    var part := HooksPart(current);
    if part.Obj? {
      forall e | e in t.events
        ensures MergeEvent(Lookup(part.fields, e), t.events[e]) == Ok(if e in part.fields then part.fields[e] else Arr([]))
      {
        if e in part.fields && part.fields[e].Arr? {
          SatisfiedGroupsMergeToThemselves(part.fields[e].items, t.events[e]);
        }
      }
    }
  }

  /** Every value the owner set stays: top-level values other than retired pins, hook events the
      template does not name, and in the others each group in its place with its own hooks first. */
  lemma {:induction false} OwnerKept(current: Dict, t: Template)
    requires GoodTemplate(t) && Merged(current, t).Ok?
    ensures var m := Merged(current, t).value;
            && (forall k | k in current && k != "hooks" && (k !in RETIRED_KEYS || k in t.top) :: k in m && m[k] == current[k])
            && (forall k | k in RETIRED_KEYS && k !in t.top :: k !in m)
            && (forall k | k in m && k != "hooks" :: k in current || k in t.top)
            && (forall k | k in t.top && k !in current :: k in m && m[k] == t.top[k])
            && (HooksPart(current).Obj? && HooksPart(m).Obj? ==>
                  forall e | e in HooksPart(current).fields :: EventKept(HooksPart(current).fields[e], Lookup(HooksPart(m).fields, e)))
  {
    var m := Merged(current, t).value;
    var part := HooksPart(current);
    if part.Obj? && HooksPart(m).Obj? {
      assert HooksPart(MergedTop(current, t)) == part;
      forall e | e in part.fields ensures EventKept(part.fields[e], Lookup(HooksPart(m).fields, e)) {
        if e in t.events && part.fields[e].Arr? {
          assert MergeEvent(Lookup(part.fields, e), t.events[e]).Ok?;
          MergeGroupsGrow(part.fields[e].items, t.events[e]);
        }
      }
    }
  }

  ghost predicate EventKept(a: Json, b: Option<Json>) {
    b == Some(a) || (
      && a.Arr? && b.Some? && b.value.Arr? && |a.items| <= |b.value.items|
      && forall i | 0 <= i < |a.items| :: Grown(a.items[i], b.value.items[i]))
  }

  // ---------------------------------------------------------------- the merge, in place

  datatype Change = DroppedKey(key: string) | AddedKey(key: string) | AddedGroup(event: string) | AddedHook(event: string, tail: Tail)

  /** Adds to an entry the hooks of the group whose tails it lacks, one by one. */
  method AddHooks(event: string, entry: Json, g: Group) returns (r: Result<Json, Error>, changed: seq<Change>)
    requires entry.Obj?
    ensures r == Extended(entry, g)
    ensures r.Ok? ==> (changed == [] <==> r.value == entry)
  {
    var hooks := HooksOf(entry);
    if hooks.Some? && !hooks.value.Arr? {
      // a value that cannot be iterated raises at once, the others at the first append
      if hooks.value.Scalar? || hooks.value.Null? || g.hooks != [] {
        return Raised(BadHooks), [];
      }
      return Ok(entry), [];
    }
    var own := if hooks.Some? then hooks.value.items else [];
    var added;
    added, changed := CollectMissing(event, g.hooks, Tails(own));
    AddedExtends(entry, g, own);
    if added == [] {
      return Ok(entry), changed;
    }
    r := Ok(Obj(entry.fields["hooks" := Arr(own + added)]));
  }

  /** The hooks whose tails are not there yet; the tails are taken once, before the loop. */
  method CollectMissing(event: string, hooks: seq<Json>, tails: set<Tail>) returns (added: seq<Json>, changed: seq<Change>)
    ensures added == Missing(hooks, tails)
    ensures changed == [] <==> added == []
  {
    added, changed := [], [];
    for i := 0 to |hooks|
      invariant added == Missing(hooks[..i], tails)
      invariant changed == [] <==> added == []
    {
      assert hooks[..i + 1][..i] == hooks[..i];
      if TailOf(hooks[i]) !in tails {
        added := added + [hooks[i]];
        changed := changed + [AddedHook(event, TailOf(hooks[i]))];
      }
    }
    assert hooks[..|hooks|] == hooks;
  }

  lemma {:induction false} AddedExtends(entry: Json, g: Group, own: seq<Json>)
    requires entry.Obj? && HooksOf(entry) == (if own == [] && "hooks" !in entry.fields then None else Some(Arr(own)))
    ensures var added := Missing(g.hooks, Tails(own));
            Extended(entry, g) == Ok(if added == [] then entry else Obj(entry.fields["hooks" := Arr(own + added)]))
    ensures var added := Missing(g.hooks, Tails(own));
            added != [] ==> Obj(entry.fields["hooks" := Arr(own + added)]) != entry
  {
    var added := Missing(g.hooks, Tails(own));
    MissingAll(g.hooks, own);
    assert own == [] ==> own + added == added;
    assert |own + added| == |own| + |added|;
    assert entry.fields["hooks" := Arr(own + added)]["hooks"].items == own + added;
  }

  lemma {:induction false} MissingAll(hooks: seq<Json>, own: seq<Json>)
    ensures own == [] ==> Missing(hooks, Tails(own)) == hooks
  {
    if own == [] {
      MissingFromNone(hooks);
      assert Tails(own) == {};
    }
  }

  lemma {:induction false} MissingFromNone(hooks: seq<Json>)
    ensures Missing(hooks, {}) == hooks
  {
    if hooks != [] {
      MissingFromNone(hooks[..|hooks| - 1]);
    }
  }

  /** Brings one event's list up to the template, group by group. */
  method MergeList(event: string, have: seq<Json>, gs: seq<Group>) returns (r: Result<seq<Json>, Error>, changed: seq<Change>)
    ensures r == MergeGroups(have, gs)
    ensures r.Ok? ==> (changed == [] <==> AllSatisfied(have, gs)) && (changed == [] ==> r.value == have)
  {
    var done := have;
    changed := [];
    for i := 0 to |gs|
      invariant MergedSoFar(have, gs, i, done, changed == [])
    {
      var next, more := AddGroup(event, done, gs[i]);
      NextGroup(have, gs, i, done, changed == [], more == []);
      if next.Raised? {
        GroupsRaise(have, gs, i);
        return next, changed;
      }
      done := next.value;
      changed := changed + more;
    }
    assert gs[..|gs|] == gs;
    return Ok(done), changed;
  }

  /** The first `i` groups are merged; nothing to report means that nothing was missing. */
  ghost predicate MergedSoFar(have: seq<Json>, gs: seq<Group>, i: nat, done: seq<Json>, quiet: bool) {
    && i <= |gs| && MergeGroups(have, gs[..i]) == Ok(done)
    && (quiet <==> AllSatisfied(have, gs[..i])) && (quiet ==> done == have)
  }

  lemma {:induction false} NextGroup(have: seq<Json>, gs: seq<Group>, i: nat, done: seq<Json>, quiet: bool, more: bool)
    requires i < |gs| && MergedSoFar(have, gs, i, done, quiet)
    requires MergeGroup(done, gs[i]).Ok? ==> (more <==> Satisfied(done, gs[i])) && (more ==> MergeGroup(done, gs[i]).value == done)
    ensures MergeGroups(have, gs[..i + 1]) == MergeGroup(done, gs[i])
    ensures MergeGroup(done, gs[i]).Ok? ==> MergedSoFar(have, gs, i + 1, MergeGroup(done, gs[i]).value, quiet && more)
  {
    GroupsStep(have, gs, i);
  }

  /** Appends the group when no entry has its matcher, and adds its missing hooks to the first that has. */
  method AddGroup(event: string, have: seq<Json>, g: Group) returns (r: Result<seq<Json>, Error>, changed: seq<Change>)
    ensures r == MergeGroup(have, g)
    ensures r.Ok? ==> (changed == [] <==> Satisfied(have, g)) && (changed == [] ==> r.value == have)
  {
    var at := FirstMatch(have, g);
    if at == |have| {
      return Ok(have + [Whole(g)]), [AddedGroup(event)];
    }
    var entry, more := AddHooks(event, have[at], g);
    if entry.Raised? {
      return Raised(entry.error), more;
    }
    assert have[at := have[at]] == have;
    return Ok(have[at := entry.value]), more;
  }

  lemma {:induction false} GroupsStep(have: seq<Json>, gs: seq<Group>, i: nat)
    requires i < |gs|
    ensures MergeGroups(have, gs[..i]).Ok? ==>
              MergeGroups(have, gs[..i + 1]) == MergeGroup(MergeGroups(have, gs[..i]).value, gs[i])
    ensures AllSatisfied(have, gs[..i + 1]) <==> AllSatisfied(have, gs[..i]) && Satisfied(have, gs[i])
  {
    assert gs[..i + 1][..i] == gs[..i];
    assert forall k | 0 <= k < i :: gs[..i + 1][k] == gs[..i][k];
    assert gs[..i + 1][i] == gs[i];
  }

  lemma {:induction false} GroupsRaise(have: seq<Json>, gs: seq<Group>, i: nat)
    requires i < |gs| && MergeGroups(have, gs[..i + 1]).Raised?
    ensures MergeGroups(have, gs) == Raised(BadHooks)
    decreases |gs|
  {
    if i + 1 < |gs| {
      var front := gs[..|gs| - 1];
      assert front[..i + 1] == gs[..i + 1];
      GroupsRaise(have, front, i);
    } else {
      assert gs[..i + 1] == gs;
      assert MergeGroups(have, gs).error.BadHooks?;
    }
  }

  lemma {:induction false} TopMerged(current: Dict, t: Template)
    requires "hooks" !in t.top
    ensures var kept := current - Dropped(current, t);
            && WithKeys(kept, t.top, t.top.Keys) == MergedTop(current, t)
            && (t.top.Keys <= kept.Keys <==> forall k | k in t.top :: k in current)
    ensures HooksPart(MergedTop(current, t)) == HooksPart(current)
    ensures UpToDate(current, t) <==>
              && Dropped(current, t) == {} && t.top.Keys <= (current - Dropped(current, t)).Keys
              && (HooksPart(current).Obj? ==> EventsDone(HooksPart(current).fields, t, t.events.Keys))
  {
  }

  /** `current` with those of `keys` it lacks, taken from `top`. */
  function WithKeys(current: Dict, top: Dict, keys: set<string>): Dict {
    current + map k | k in top && k in keys && k !in current :: top[k]
  }

  lemma {:induction false} WithOneMoreKey(current: Dict, top: Dict, keys: set<string>, k: string)
    requires k in top
    ensures var now := WithKeys(current, top, keys);
            WithKeys(current, top, keys + {k}) == if k in now then now else now[k := top[k]]
  {
  }

  predicate MergesFine(hooks: Dict, t: Template, events: set<string>)
    requires events <= t.events.Keys
  {
    forall e | e in events :: MergeEvent(Lookup(hooks, e), t.events[e]).Ok?
  }

  predicate EventsDone(hooks: Dict, t: Template, events: set<string>)
    requires events <= t.events.Keys
  {
    forall e | e in events :: EventDone(Lookup(hooks, e), t.events[e])
  }

  /** What those events' lists become. */
  function Lists(hooks: Dict, t: Template, events: set<string>): (d: Dict)
    requires events <= t.events.Keys && MergesFine(hooks, t, events)
    ensures d.Keys == events
  {
    map e | e in events :: MergeEvent(Lookup(hooks, e), t.events[e]).value
  }

  lemma {:induction false} FineStep(hooks: Dict, t: Template, seen: set<string>, e: string)
    requires seen <= t.events.Keys && MergesFine(hooks, t, seen) && e in t.events && e !in seen
    ensures MergesFine(hooks, t, seen + {e}) <==> MergeEvent(Lookup(hooks, e), t.events[e]).Ok?
    ensures EventsDone(hooks, t, seen + {e}) <==> EventsDone(hooks, t, seen) && EventDone(Lookup(hooks, e), t.events[e])
  {
  }

  lemma {:induction false} ListsStep(hooks: Dict, t: Template, seen: set<string>, e: string)
    requires seen <= t.events.Keys && MergesFine(hooks, t, seen) && e in t.events && e !in seen
    requires MergeEvent(Lookup(hooks, e), t.events[e]).Ok? && MergesFine(hooks, t, seen + {e})
    ensures Lists(hooks, t, seen + {e}) == Lists(hooks, t, seen)[e := MergeEvent(Lookup(hooks, e), t.events[e]).value]
  {
  }

  lemma {:induction false} Overlay<V>(base: map<string, V>, part: map<string, V>, k: string, v: V)
    requires k !in part
    ensures base + part[k := v] == (base + part)[k := v]
    ensures k in base + part <==> k in base
    ensures k in base ==> (base + part)[k] == base[k]
  {
  }

  /** The loop's state: the events seen so far are brought up to the template, quietly or not. */
  ghost predicate EventsMerged(hooks: Dict, t: Template, seen: set<string>, now: Dict, quiet: bool) {
    && seen <= t.events.Keys
    && MergesFine(hooks, t, seen)
    && now == hooks + Lists(hooks, t, seen)
    && (quiet <==> EventsDone(hooks, t, seen))
  }

  lemma {:induction false} NextEvent(hooks: Dict, t: Template, seen: set<string>, now: Dict, quiet: bool, e: string)
    requires EventsMerged(hooks, t, seen, now, quiet) && e in t.events && e !in seen
    ensures Lookup(now, e) == Lookup(hooks, e)
  {
    Overlay(hooks, Lists(hooks, t, seen), e, Null);
  }

  lemma {:induction false} EventsMergedStep(hooks: Dict, t: Template, seen: set<string>, now: Dict, quiet: bool, e: string, one: Json, still: bool)
    requires EventsMerged(hooks, t, seen, now, quiet)
    requires e in t.events && e !in seen && MergeEvent(Lookup(hooks, e), t.events[e]) == Ok(one)
    requires still <==> EventDone(Lookup(hooks, e), t.events[e])
    ensures EventsMerged(hooks, t, seen + {e}, now[e := one], quiet && still)
  {
    FineStep(hooks, t, seen, e);
    ListsStep(hooks, t, seen, e);
    Overlay(hooks, Lists(hooks, t, seen), e, one);
  }

  class Settings {
    var current: Dict

    constructor (current: Dict)
      ensures this.current == current
    {
      this.current := current;
    }

    /** Drops the retired pins the template no longer sets. */
    method DropRetired(t: Template) returns (changed: seq<Change>)
      modifies this
      ensures current == old(current) - Dropped(old(current), t)
      ensures changed == [] <==> Dropped(old(current), t) == {}
    {
      var rest := RETIRED_KEYS;
      changed := [];
      ghost var gone: set<string> := {};
      while rest != {}
        invariant rest <= RETIRED_KEYS
        invariant gone == Dropped(old(current), t) - rest
        invariant current == old(current) - gone
        invariant changed == [] <==> gone == {}
        decreases rest
      {
        var k := Pick(rest);
        if k in current && k !in t.top {
          current := current - {k};
          changed := changed + [DroppedKey(k)];
          gone := gone + {k};
        }
        rest := rest - {k};
      }
    }

    /** Adds the top-level keys the file lacks. */
    method AddKeys(t: Template) returns (changed: seq<Change>)
      modifies this
      ensures current == WithKeys(old(current), t.top, t.top.Keys)
      ensures changed == [] <==> t.top.Keys <= old(current).Keys
    {
      var rest := t.top.Keys;
      changed := [];
      while rest != {}
        invariant rest <= t.top.Keys
        invariant current == WithKeys(old(current), t.top, t.top.Keys - rest)
        invariant changed == [] <==> t.top.Keys - rest <= old(current).Keys
        decreases rest
      {
        var k := Pick(rest);
        WithOneMoreKey(old(current), t.top, t.top.Keys - rest, k);
        assert t.top.Keys - (rest - {k}) == t.top.Keys - rest + {k};
        if k !in current {
          current := current[k := t.top[k]];
          changed := changed + [AddedKey(k)];
        }
        rest := rest - {k};
      }
    }

    /** Adds the hook events, groups and hooks the file lacks; a `hooks` value that is no object stays. */
    method MergeHooks(t: Template) returns (raised: bool, changed: seq<Change>)
      modifies this
      ensures var part := HooksPart(old(current));
              && (raised <==> part.Obj? && Breaks(part.fields, t))
              && (!part.Obj? ==> current == old(current) && changed == [])
              && (part.Obj? && !raised ==>
                    && current == old(current)["hooks" := Obj(MergedHooks(part.fields, t))]
                    && (changed == [] <==> EventsDone(part.fields, t, t.events.Keys)))
    {
      ghost var top := current;
      if "hooks" !in current {
        current := current["hooks" := Obj(map[])];
      }
      if !current["hooks"].Obj? {
        return false, [];
      }
      var hooks;
      hooks, changed := MergeEvents(t, current["hooks"].fields);
      if hooks == None {
        return true, changed;
      }
      current := current["hooks" := Obj(hooks.value)];
      assert current == top["hooks" := Obj(hooks.value)];
      return false, changed;
    }

    /** The whole merge, in place.  It reports nothing exactly when the file was up to date. */
    method Merge(t: Template) returns (raised: bool, changed: seq<Change>)
      requires "hooks" !in t.top
      modifies this
      ensures if raised then Merged(old(current), t).Raised? else Merged(old(current), t) == Ok(current)
      ensures !raised ==> (changed == [] <==> UpToDate(old(current), t))
    {
      var dropped := DropRetired(t);
      var added := AddKeys(t);
      TopMerged(old(current), t);
      var more;
      raised, more := MergeHooks(t);
      changed := dropped + added + more;
    }
  }

  /** Brings one event up to the template; a missing list starts empty and a value that is no list stays. */
  method MergeOne(event: string, have: Option<Json>, gs: seq<Group>) returns (r: Result<Json, Error>, changed: seq<Change>)
    ensures r == MergeEvent(have, gs)
    ensures r.Ok? ==> (changed == [] <==> EventDone(have, gs))
  {
    if have.Some? && !have.value.Arr? {
      return Ok(have.value), [];
    }
    NothingForNone(gs);
    var list, more := MergeList(event, if have.Some? then have.value.items else [], gs);
    if list.Raised? {
      return Raised(BadHooks), more;
    }
    return Ok(Arr(list.value)), more;
  }

  /** Brings the hook events up to the template, one by one. */
  method MergeEvents(t: Template, hooks: Dict) returns (r: Option<Dict>, changed: seq<Change>)
    ensures r == if Breaks(hooks, t) then None else Some(MergedHooks(hooks, t))
    ensures r.Some? ==> (changed == [] <==> EventsDone(hooks, t, t.events.Keys))
  {
    var rest := t.events.Keys;
    changed := [];
    var now := hooks;
    while rest != {}
      invariant rest <= t.events.Keys
      invariant EventsMerged(hooks, t, t.events.Keys - rest, now, changed == [])
      decreases rest
    {
      var e := Pick(rest);
      ghost var seen := t.events.Keys - rest;
      NextEvent(hooks, t, seen, now, changed == [], e);
      var one, more := MergeOne(e, Lookup(now, e), t.events[e]);
      if one.Raised? {
        return None, changed;
      }
      EventsMergedStep(hooks, t, seen, now, changed == [], e, one.value, more == []);
      now := now[e := one.value];
      changed := changed + more;
      rest := rest - {e};
      assert t.events.Keys - rest == seen + {e};
    }
    assert t.events.Keys - {} == t.events.Keys;
    return Some(now), changed;
  }

  lemma {:induction false} NothingForNone(gs: seq<Group>)
    ensures AllSatisfied([], gs) <==> gs == []
  {
    if gs != [] {
      assert !Satisfied([], gs[0]);
    }
  }

  // ---------------------------------------------------------------- the upgrade

  datatype Content = Readable(json: Json) | Unreadable

  /** The file after a due upgrade: rewritten only when the merge reports something. */
  function Upgraded(current: Dict, t: Template): Dict {
    if UpToDate(current, t) || Merged(current, t).Raised? then current else Merged(current, t).value
  }

  class ConfigDir {
    var file: Option<Content>
    var stamp: Option<string>          // the template digest the file was last brought up to

    constructor (file: Option<Content>, stamp: Option<string>)
      ensures this.file == file && this.stamp == stamp
    {
      this.file, this.stamp := file, stamp;
    }

    predicate Due(digest: string)
      reads this
    {
      stamp != Some(digest) && file.Some? && file.value.Readable? && file.value.json.Obj?
    }

    /** Writes the template only where no file is; an existing one is left alone, whatever it holds. */
    method Seed(rendered: Json) returns (wrote: bool)
      modifies this`file
      ensures wrote <==> old(file) == None
      ensures file == if old(file) == None then Some(Readable(rendered)) else old(file)
    {
      wrote := file == None;
      if wrote {
        file := Some(Readable(rendered));
      }
    }

    /** Merges the template once per digest.  `dies`: the process stops between the file and the stamp. */
    method Upgrade(t: Template, digest: string, dies: bool) returns (raised: bool, changed: seq<Change>)
      requires GoodTemplate(t)
      modifies this
      ensures !old(Due(digest)) ==> !raised && changed == [] && file == old(file) && stamp == old(stamp)
      ensures old(Due(digest)) ==>
                var current := old(file).value.json.fields;
                && file == Some(Readable(Obj(Upgraded(current, t))))
                && (raised <==> Merged(current, t).Raised?)
                && (!raised ==> (changed == [] <==> UpToDate(current, t)))
                && stamp == if raised || dies then old(stamp) else Some(digest)
    {
      if stamp == Some(digest) || file == None || !file.value.Readable? || !file.value.json.Obj? {
        return false, [];
      }
      var settings := new Settings(file.value.json.fields);
      raised, changed := settings.Merge(t);
      if raised {
        return;
      }
      if changed != [] {
        file := Some(Readable(Obj(settings.current)));
      }
      if !dies {
        stamp := Some(digest);
      }
    }

    /** A missing file is seeded and then upgraded.  The upgrade raises nothing, and it leaves the seeded
        file alone unless a later group of a matcher runs something that the first one does not. */
    method SeedThenUpgrade(t: Template, digest: string) returns (raised: bool, changed: seq<Change>)
      requires GoodTemplate(t) && file == None && stamp != Some(digest)
      modifies this
      ensures !raised && stamp == Some(digest)
      ensures changed == [] <==> SeedComplete(t)
      ensures changed == [] ==> file == Some(Readable(Obj(Rendered(t))))
    {
      SeedMerges(t);
      SeedNeedsNoUpgradeExactly(t);
      ghost var seeded := Rendered(t);
      var wrote := Seed(Obj(Rendered(t)));
      assert Due(digest) && file.value.json.fields == seeded;
      raised, changed := Upgrade(t, digest, false);
    }

    /** A crash between the file and the stamp, then a rerun with no edits in between: the rerun
        reports nothing, leaves the file as the first run wrote it, and sets the stamp. */
    method UpgradeDieAndRerun(t: Template, digest: string) returns (raised: bool, changed: seq<Change>)
      requires GoodTemplate(t) && Due(digest) && Merged(file.value.json.fields, t).Ok?
      modifies this
      ensures !raised && changed == [] && stamp == Some(digest)
      ensures file == Some(Readable(Obj(Upgraded(old(file).value.json.fields, t))))
    {
      var first, report := Upgrade(t, digest, true);
      UpgradedTwice(old(file).value.json.fields, t);
      raised, changed := Upgrade(t, digest, false);
    }

    /** After an upgrade the owner edits the file in any way; until the digest changes, upgrades leave it so. */
    method EditThenUpgrade(t: Template, digest: string, edited: Option<Content>) returns (changed: seq<Change>)
      requires GoodTemplate(t) && Due(digest) && Merged(file.value.json.fields, t).Ok?
      modifies this
      ensures file == edited && changed == [] && stamp == Some(digest)
    {
      var r1, c1 := Upgrade(t, digest, false);
      file := edited;
      var r2, c2 := Upgrade(t, digest, false);
      return c2;
    }
  }

  // ---------------------------------------------------------------- the seeded file

  /** The groups of an event as the list of the rendered template. */
  function Wholes(gs: seq<Group>): (r: seq<Json>)
    ensures |r| == |gs| && forall k | 0 <= k < |r| :: r[k] == Whole(gs[k])
  {
    seq(|gs|, k requires 0 <= k < |gs| => Whole(gs[k]))
  }

  /** The template as a file. */
  function Rendered(t: Template): Dict {
    t.top["hooks" := Obj(map e | e in t.events :: Arr(Wholes(t.events[e])))]
  }

  /** Whatever a later group of the same matcher runs, the first one runs too. */
  predicate FirstsComplete(gs: seq<Group>) {
    forall k | 0 <= k < |gs| :: FirstCovers(gs, k)
  }

  predicate SeedComplete(t: Template) {
    forall e | e in t.events :: FirstsComplete(t.events[e])
  }

  predicate FirstCovers(gs: seq<Group>, k: nat)
    requires k < |gs|
  {
    forall i | 0 <= i <= k && IsFirst(gs, i, k) :: Tails(gs[k].hooks) <= Tails(gs[i].hooks)
  }

  predicate IsFirst(gs: seq<Group>, i: nat, k: nat)
    requires i <= k < |gs|
  {
    gs[i].matcher == gs[k].matcher && forall j | 0 <= j < i :: gs[j].matcher != gs[k].matcher
  }

  lemma {:induction false} WholeMatches(a: Group, g: Group)
    requires WellFormed(a)
    ensures Matches(Whole(a), g) <==> a.matcher == g.matcher
    ensures HooksOf(Whole(a)) == Some(Arr(a.hooks))
  {
  }

  lemma {:induction false} FirstOfMatcher(gs: seq<Group>, k: nat) returns (i: nat)
    requires k < |gs| && forall g | g in gs :: WellFormed(g)
    ensures i <= k && i == FirstMatch(Wholes(gs), gs[k])
    ensures IsFirst(gs, i, k)
  {
    forall j | 0 <= j < |gs| ensures Matches(Wholes(gs)[j], gs[k]) <==> gs[j].matcher == gs[k].matcher {
      WholeMatches(gs[j], gs[k]);
    }
    i := FirstMatch(Wholes(gs), gs[k]);
  }

  /** A template's own group lacks nothing of another exactly when it has all its tails. */
  lemma {:induction false} WholeExtends(a: Group, g: Group)
    requires WellFormed(a) && WellFormed(g)
    ensures Extended(Whole(a), g) == Ok(Whole(a)) <==> Tails(g.hooks) <= Tails(a.hooks)
  {
    WholeMatches(a, g);
    AddedExtends(Whole(a), g, a.hooks);
    MissingNone(g.hooks, Tails(a.hooks));
    assert forall h | h in g.hooks :: TailOf(h) in Tails(g.hooks);
  }

  lemma {:induction false} SeededListDone(gs: seq<Group>)
    requires forall g | g in gs :: WellFormed(g)
    ensures AllSatisfied(Wholes(gs), gs) <==> FirstsComplete(gs)
  {
    forall k | 0 <= k < |gs| ensures Satisfied(Wholes(gs), gs[k]) <==> FirstCovers(gs, k) {
      SeededGroupDone(gs, k);
    }
  }

  lemma {:induction false} SeededGroupDone(gs: seq<Group>, k: nat)
    requires k < |gs| && forall g | g in gs :: WellFormed(g)
    ensures Satisfied(Wholes(gs), gs[k]) <==> FirstCovers(gs, k)
  {
    var i := FirstOfMatcher(gs, k);
    WholeExtends(gs[i], gs[k]);
    forall j | 0 <= j <= k && IsFirst(gs, j, k) ensures j == i {
      OneIsFirst(gs, i, j, k);
    }
  }

  lemma {:induction false} OneIsFirst(gs: seq<Group>, i: nat, j: nat, k: nat)
    requires i <= k && j <= k < |gs| && IsFirst(gs, i, k) && IsFirst(gs, j, k)
    ensures i == j
  {
  }

  /** Main result: a freshly seeded file needs no upgrade if and only if, in every event, the first group
      of each matcher runs all that later groups of that matcher run. */
  lemma {:induction false} SeedNeedsNoUpgradeExactly(t: Template)
    requires GoodTemplate(t)
    ensures UpToDate(Rendered(t), t) <==> SeedComplete(t)
  {
    SeededTop(t);
    SeededEvents(t, Rendered(t)["hooks"].fields);
  }

  lemma {:induction false} SeededEvents(t: Template, hooks: Dict)
    requires GoodTemplate(t) && forall e | e in t.events :: Lookup(hooks, e) == Some(Arr(Wholes(t.events[e])))
    ensures EventsDone(hooks, t, t.events.Keys) <==> SeedComplete(t)
  {
    forall e | e in t.events ensures EventDone(Lookup(hooks, e), t.events[e]) <==> FirstsComplete(t.events[e]) {
      SeededListDone(t.events[e]);
    }
  }

  lemma {:induction false} SeededTop(t: Template)
    requires "hooks" !in t.top
    ensures Dropped(Rendered(t), t) == {} && (forall k | k in t.top :: k in Rendered(t))
    ensures HooksPart(Rendered(t)) == Rendered(t)["hooks"] == HooksPart(MergedTop(Rendered(t), t))
  {
  }

  /** Every entry is an object with a list of hooks. */
  predicate Plain(have: seq<Json>) {
    forall h | h in have :: h.Obj? && HooksOf(h).Some? && HooksOf(h).value.Arr?
  }

  lemma {:induction false} PlainMerges(have: seq<Json>, gs: seq<Group>)
    requires Plain(have)
    ensures MergeGroups(have, gs).Ok? && Plain(MergeGroups(have, gs).value)
  {
    if gs != [] {
      PlainMerges(have, gs[..|gs| - 1]);
      PlainMergesOne(MergeGroups(have, gs[..|gs| - 1]).value, gs[|gs| - 1]);
    }
  }

  lemma {:induction false} PlainMergesOne(have: seq<Json>, g: Group)
    requires Plain(have)
    ensures MergeGroup(have, g).Ok? && Plain(MergeGroup(have, g).value)
  {
    var i := FirstMatch(have, g);
    if i < |have| {
      assert have[i] in have;
    }
  }

  /** The template merges into the file rendered from it without an exception. */
  lemma {:induction false} SeedMerges(t: Template)
    requires GoodTemplate(t)
    ensures Merged(Rendered(t), t).Ok?
  {
    var hooks := Rendered(t)["hooks"].fields;
    SeededTop(t);
    forall e | e in t.events ensures MergeEvent(Lookup(hooks, e), t.events[e]).Ok? {
      PlainMerges(Wholes(t.events[e]), t.events[e]);
    }
  }

  lemma {:induction false} UpgradedTwice(current: Dict, t: Template)
    requires GoodTemplate(t) && Merged(current, t).Ok?
    ensures UpToDate(Upgraded(current, t), t) && Upgraded(Upgraded(current, t), t) == Upgraded(current, t)
    ensures Merged(Upgraded(current, t), t).Ok?
  {
    MergeIdempotent(current, t);
  }
}
