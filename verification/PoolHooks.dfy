/**
  What a merge of the settings template means for the commands that hooks run, told from the command
  texts: a command is the same under every interpreter.
 */
module PoolHooks {
  import opened Options
  import opened PoolConfig

  // ---------------------------------------------------------------- commands without their interpreter

  /** A quote followed by a blank at position `i`. */
  predicate Gap(s: string, i: nat) {
    i + 1 < |s| && s[i] == '"' && s[i + 1] == ' '
  }

  ghost predicate NoGap(s: string) {
    forall i: nat :: !Gap(s, i)
  }

  /** `<head> <rest>`, where `head` is in quotes and holds no quote followed by a blank. */
  ghost predicate Interpreted(c: string, head: string, rest: string) {
    c == head + " " + rest && head != "" && head[0] == '"' == head[|head| - 1] && NoGap(head)
  }

  ghost predicate Quoted(c: string) {
    c != "" && c[0] == '"' && !NoGap(c)
  }

  /** Without an interpreter in front, the command is `rest`. */
  ghost predicate RunsBare(c: string, rest: string) {
    (!Quoted(c) && rest == c) || exists head :: Interpreted(c, head, rest)
  }

  lemma {:induction false} AfterFirstGap(s: string, i: nat)
    requires Gap(s, i) && forall j: nat | j < i :: !Gap(s, j)
    ensures AfterQuote(s) == Some(s[i + 2..])
  {
    if i > 0 {
      assert !Gap(s, 0);
      forall j: nat | j < i - 1 ensures !Gap(s[1..], j) {
        assert !Gap(s, j + 1);
      }
      AfterFirstGap(s[1..], i - 1);
      assert s[1..][i + 1..] == s[i + 2..];
    }
  }

  lemma {:induction false} AfterNoGap(s: string)
    requires NoGap(s)
    ensures AfterQuote(s) == None
  {
    if |s| >= 2 {
      assert !Gap(s, 0);
      forall j: nat ensures !Gap(s[1..], j) {
        assert !Gap(s, j + 1);
      }
      AfterNoGap(s[1..]);
    }
  }

  lemma {:induction false} FirstGap(s: string, i: nat) returns (k: nat)
    requires Gap(s, i)
    ensures k <= i && Gap(s, k) && forall j: nat | j < k :: !Gap(s, j)
  {
    k := i;
    if j: nat :| j < i && Gap(s, j) {
      k := FirstGap(s, j);
    }
  }

  lemma {:induction false} InterpretedTail(c: string, head: string, rest: string)
    requires Interpreted(c, head, rest)
    ensures HookTail(c) == rest && Quoted(c)
  {
    var i := |head| - 1;
    assert Gap(c, i);
    forall j: nat | j < i ensures !Gap(c, j) {
      assert !Gap(head, j);
      assert c[j] == head[j] && c[j + 1] == head[j + 1];
    }
    AfterFirstGap(c, i);
    assert c[i + 2..] == rest;
  }

  lemma {:induction false} QuotedIsInterpreted(c: string) returns (head: string)
    requires Quoted(c)
    ensures Interpreted(c, head, HookTail(c))
  {
    var i: nat :| Gap(c, i);
    var k := FirstGap(c, i);
    AfterFirstGap(c, k);
    head := c[..k + 1];
    forall j: nat ensures !Gap(head, j) {
      assert j < k ==> !Gap(c, j);
    }
    assert c == head + " " + c[k + 2..];
  }

  /** The tail of a command is what it runs without an interpreter, and nothing else is. */
  lemma {:induction false} HookTailExactly(c: string, rest: string)
    ensures HookTail(c) == rest <==> RunsBare(c, rest)
  {
    if Quoted(c) {
      var head := QuotedIsInterpreted(c);
      forall h, r | Interpreted(c, h, r) ensures r == HookTail(c) {
        InterpretedTail(c, h, r);
      }
    } else {
      forall h, r ensures !Interpreted(c, h, r) {
        if Interpreted(c, h, r) {
          InterpretedTail(c, h, r);
        }
      }
      if c != "" && c[0] == '"' {
        AfterNoGap(c);
      }
    }
  }

  /** An interpreter whose path holds no quote and starts with no blank is left out, whichever it is. */
  lemma {:induction false} AnyInterpreter(exe: string, rest: string)
    requires '"' !in exe && (exe != "" ==> exe[0] != ' ')
    ensures HookTail("\"" + exe + "\" " + rest) == rest
  {
    var head := "\"" + exe + "\"";
    assert "\"" + exe + "\" " + rest == head + " " + rest;
    forall j: nat ensures !Gap(head, j) {
      assert 0 < j <= |exe| ==> head[j] == exe[j - 1] && head[j] in exe;
      assert j == 0 && exe != "" ==> head[1] == exe[0];
    }
    InterpretedTail(head + " " + rest, head, rest);
  }

  // ---------------------------------------------------------------- hooks that arrive

  /** The command of the hook prints as `c`. */
  predicate Shows(hook: Json, c: string) {
    hook.Obj? &&
    if "command" !in hook.fields then c == ""
    else match hook.fields["command"]
      case Str(t) => c == t
      case Scalar(t) => c == t
      case Null => c == "None"
      case _ => false
  }

  /** The hook runs what `c` runs, under some interpreter or none. */
  ghost predicate RunsSame(hook: Json, c: string) {
    exists own, rest :: Shows(hook, own) && RunsBare(own, rest) && RunsBare(c, rest)
  }

  predicate HasMatcher(entry: Json, matcher: Option<Json>) {
    entry.Obj? &&
    match matcher
    case None => "matcher" !in entry.fields || entry.fields["matcher"] == Null
    case Some(v) => "matcher" in entry.fields && entry.fields["matcher"] == v
  }

  /** Some hook of the entry runs what `c` runs. */
  ghost predicate EntryRuns(entry: Json, c: string) {
    && entry.Obj? && "hooks" in entry.fields && entry.fields["hooks"].Arr?
    && exists o | o in entry.fields["hooks"].items :: RunsSame(o, c)
  }

  /** The first entry with the matcher runs what `c` runs. */
  ghost predicate Arrived(items: seq<Json>, matcher: Option<Json>, c: string) {
    exists i | 0 <= i < |items| && HasMatcher(items[i], matcher) ::
      (forall j | 0 <= j < i :: !HasMatcher(items[j], matcher)) && EntryRuns(items[i], c)
  }

  lemma {:induction false} SameTail(o: Json, own: string, h: Json, c: string)
    requires Shows(o, own) && Shows(h, c)
    ensures TailOf(o) == TailOf(h) <==> RunsSame(o, c)
  {
    HookTailExactly(own, HookTail(own));
    HookTailExactly(c, HookTail(c));
    if RunsSame(o, c) {
      var x, rest :| Shows(o, x) && RunsBare(x, rest) && RunsBare(c, rest);
      HookTailExactly(x, rest);
      HookTailExactly(c, rest);
    }
  }

  /** A hook whose tail is a text has a command that prints. */
  lemma {:induction false} TextTailShows(o: Json) returns (own: string)
    requires o.Obj? && TailOf(o).Bare?
    ensures Shows(o, own)
  {
    own := if "command" !in o.fields then "" else
      match o.fields["command"] case Str(t) => t case Scalar(t) => t case _ => "None";
  }

  lemma {:induction false} MatchesIs(entry: Json, g: Group)
    requires WellFormed(g)
    ensures Matches(entry, g) <==> HasMatcher(entry, g.matcher)
  {
  }

  /** A satisfied group: its first entry runs what each of its hooks runs. */
  lemma {:induction false} SatisfiedRuns(items: seq<Json>, g: Group, h: Json, c: string)
    requires Satisfied(items, g) && WellFormed(g) && h in g.hooks && Shows(h, c)
    ensures Arrived(items, g.matcher, c)
  {
    var i := FirstMatch(items, g);
    forall j | 0 <= j <= i ensures Matches(items[j], g) <==> HasMatcher(items[j], g.matcher) {
      MatchesIs(items[j], g);
    }
    CompleteEntryRuns(items[i], g, h, c);
  }

  lemma {:induction false} CompleteEntryRuns(entry: Json, g: Group, h: Json, c: string)
    requires entry.Obj? && Extended(entry, g) == Ok(entry) && h in g.hooks && Shows(h, c)
    ensures EntryRuns(entry, c)
  {
    if HooksOf(entry).Some? && HooksOf(entry).value.Arr? {
      var own := HooksOf(entry).value.items;
      AddedExtends(entry, g, own);
      MissingNone(g.hooks, Tails(own));
      assert TailOf(h) in Tails(own);
      var o :| o in own && o.Obj? && TailOf(o) == TailOf(h);
      var text := TextTailShows(o);
      SameTail(o, text, h, c);
    }
  }

  /** Main result: after a merge, in every event whose list is there as a list or is made by it, the first
      entry of a template group's matcher runs what each of the group's commands runs, under some
      interpreter or none. */
  lemma {:induction false} HooksArrive(current: Dict, t: Template, e: string, k: nat, h: Json, c: string)
    requires GoodTemplate(t) && Merged(current, t).Ok? && HooksPart(current).Obj? && e in t.events
    requires e in HooksPart(current).fields ==> HooksPart(current).fields[e].Arr?
    requires k < |t.events[e]| && h in t.events[e][k].hooks && Shows(h, c)
    ensures var after := Upgraded(current, t);
            && "hooks" in after && after["hooks"].Obj?
            && e in after["hooks"].fields && after["hooks"].fields[e].Arr?
            && Arrived(after["hooks"].fields[e].items, t.events[e][k].matcher, c)
  {
    var after := Upgraded(current, t);
    UpgradedTwice(current, t);
    EventIsList(current, t, e);
    var items := after["hooks"].fields[e].items;
    assert EventDone(Lookup(after["hooks"].fields, e), t.events[e]);
    assert AllSatisfied(items, t.events[e]);
    SatisfiedRuns(items, t.events[e][k], h, c);
  }

  lemma {:induction false} EventIsList(current: Dict, t: Template, e: string)
    requires GoodTemplate(t) && Merged(current, t).Ok? && HooksPart(current).Obj? && e in t.events && t.events[e] != []
    requires e in HooksPart(current).fields ==> HooksPart(current).fields[e].Arr?
    ensures var after := Upgraded(current, t);
            && "hooks" in after && after["hooks"].Obj? && HooksPart(after) == after["hooks"]
            && e in after["hooks"].fields && after["hooks"].fields[e].Arr?
  {
    TopMerged(current, t);
    var part := HooksPart(current).fields;
    if UpToDate(current, t) {
      assert EventDone(Lookup(part, e), t.events[e]);
    } else {
      assert !Breaks(part, t);
      assert MergeEvent(Lookup(part, e), t.events[e]).Ok?;
      assert MergedHooks(part, t)[e] == MergeEvent(Lookup(part, e), t.events[e]).value;
    }
  }

  /** And nothing is added twice: a hook that a merge adds to an entry runs what none of the entry's own
      hooks ran. */
  lemma {:induction false} AddedAreNew(entry: Json, g: Group, own: seq<Json>, h: Json, c: string, o: Json)
    requires entry.Obj? && HooksOf(entry) == Some(Arr(own)) && Extended(entry, g).Ok?
    requires h in Missing(g.hooks, Tails(own)) && Shows(h, c) && o in own && o.Obj?
    ensures HooksOf(Extended(entry, g).value) == Some(Arr(own + Missing(g.hooks, Tails(own))))
    ensures h in g.hooks && !RunsSame(o, c)
  {
    AddedExtends(entry, g, own);
    MissingCovers(g.hooks, Tails(own));
    if own2 :| Shows(o, own2) {
      SameTail(o, own2, h, c);
    }
  }
}
