/** Expressions within every budget whose value is beyond the length limit. */
module Overflows {
  import opened Options
  import opened StaticValues
  import opened PythonValues
  import opened Expressions
  import opened Meters
  import opened Bounds
  import opened Rendering
  import opened RenderedValues
  import opened Calls
  import opened Guards
  import opened CallBounds
  import opened Evaluator

  lemma {:induction false} CallKinds()
    ensures KindOfCall("executable_matcher") == ExecutableCall
    ensures KindOfCall("AnyMatcher") == GroupCall("any.v1")
    ensures KindOfCall("with_required_flag") == FlagCall
  {
    hide NativeSpec;
  }

  /** The three calls that are used below, in the evaluator's table. */
  lemma {:induction false} TableCalls(positional: seq<Value>, keywords: Fields, lib: Library)
    ensures var name := "executable_matcher";
            && Table(lib).apply(name, positional, keywords) == ApplyExecutable(positional, keywords, lib)
            && Table(lib).charged(name, positional, keywords).None?
            && (Table(lib).widens(name, positional, keywords) <==> |positional| > MAX_SEQUENCE_ITEMS + 1)
    ensures var name := "AnyMatcher";
            && Table(lib).apply(name, positional, keywords) == ApplyGroup("any.v1", positional, keywords)
            && Table(lib).charged(name, positional, keywords).None?
    ensures var name := "with_required_flag";
            && Table(lib).apply(name, positional, keywords) == ApplyFlag(positional, keywords, lib)
            && Table(lib).charged(name, positional, keywords).None?
            && (FlagRequest(positional, keywords).Some? ==>
                  var (matcher, change) := FlagRequest(positional, keywords).value;
                  Table(lib).widens(name, positional, keywords) <==> CloneWidens(matcher, change))
  {
    hide KindOfCall, ApplyExecutable, ApplyGroup, ApplyFlag, FlagRequest, CloneWidens;
    CallKinds();
  }

  // ---- Settings -----------------------------------------------------------------------------------------------

  /** Only the first setting can be stored when no other argument is given. */
  lemma {:induction false} FirstSetting(config: seq<(Value, Value)>, fields: Fields, mapping: seq<(string, string)>,
      lib: Library)
    requires mapping != [] && forall i :: 1 <= i < |mapping| ==> Named(fields, mapping[i].0).None?
    ensures var v := Given(fields, mapping[0].0);
            Configured(config, fields, mapping, true, lib) == if Skipped(v) then config
              else Put(config, mapping[0].1, Setting(v, true, lib))
  {
    var front := mapping[..|mapping| - 1];
    assert Skipped(Null) by {
      assert Equal(Null, [Null, Tuple([]), FrozenSet([]), Bool(false)][0]);
    }
    if front == [] {
      assert Configured(config, fields, front, true, lib) == config;
    } else {
      FirstSetting(config, fields, front, lib);
    }
  }

  lemma {:induction false} NoneRaises(fields: Fields, lib: Library)
    requires forall i :: 1 <= i < |SETTINGS| ==> Named(fields, SETTINGS[i].0).None?
    requires var v := Given(fields, SETTINGS[0].0); Skipped(v) || !SettingRaises(v, true, lib)
    ensures !SettingsRaise(fields, SETTINGS, true, lib)
  {
    hide SETTINGS;
    assert Skipped(Null) by {
      assert Equal(Null, [Null, Tuple([]), FrozenSet([]), Bool(false)][0]);
    }
  }

  lemma {:induction false} OtherSettings()
    ensures |SETTINGS| > 0 && SETTINGS[0] == (FLAGS, FLAGS) && forall i :: 1 <= i < |SETTINGS| ==>
            SETTINGS[i].0 != FLAGS
  {
    assert |FLAGS| == 14;
    forall i | 1 <= i < |SETTINGS| ensures |SETTINGS[i].0| != 14 {
    }
  }

  // ---- Plain positional arguments ---------------------------------------------------------------------------

  function PlainArguments(n: nat): (r: seq<Value>)
    ensures |r| == n + 1 && r[0] == Str("a") && forall i :: 0 < i <= n ==> r[i] == Str("")
  {
    seq(n + 1, i => if i == 0 then Str("a") else Str(""))
  }

  /** `executable_matcher("a", "", "", ...)` with `n` subcommands. */
  function PlainCall(n: nat): Expr {
    Call(Some("executable_matcher"), Constants(PlainArguments(n)), [])
  }

  lemma {:induction false} PlainApplies(positional: seq<Value>, n: nat, lib: Library)
    requires positional == PlainArguments(n) && n > MAX_SEQUENCE_ITEMS
    ensures ApplyExecutable(positional, [], lib).Ok? && !Bounded(ApplyExecutable(positional, [], lib).value)
  {
    hide SETTINGS, Configured;
    NoneRaises([], lib) by {
      assert Skipped(Null) by {
        assert Equal(Null, [Null, Tuple([]), FrozenSet([]), Bool(false)][0]);
      }
    }
    assert |"a"| == 1 && |"a" + ".cmd"| == 5 && |"a" + ".exe"| == 5;
    ExecutableBounded(positional, [], lib);
  }

  lemma {:induction false} PlainFrom(e: Expr, n: nat, env: Env, lib: Library, p: Metered<seq<Value>>,
      k: Metered<Fields>)
    requires MAX_SEQUENCE_ITEMS < n <= 29_000 && e.Call? && e.func == Some("executable_matcher")
    requires p == MeterElements(e, e.args, true, [], env, Table(lib))
             && k == MeterKeywords(e, e.keywords, [], env, Table(lib))
    requires p.result == Ok(PlainArguments(n)) && AtMost(p.use, n + 1, 0, 4 * (n + 1), 1)
             && k == Metered(Ok([]), NOTHING)
    ensures Den(e, env, Table(lib)).Ok? && !Bounded(Den(e, env, Table(lib)).value)
    ensures Fits(START, Meter(e, env, Table(lib)).use) && Meter(e, env, Table(lib)).use.wide
  {
    hide Meter, MeterElements, MeterKeywords, Table;
    hide ApplyExecutable;
    TableCalls(p.result.value, k.result.value, lib);
    PlainApplies(p.result.value, n, lib);
    CallMeter(e, env, Table(lib), p, k, n + 1, 0, 4 * (n + 1), 1);
  }

  lemma {:induction false} PlainArgumentsAreSmall(n: nat)
    ensures SmallTexts(PlainArguments(n))
  {
  }

  /** It evaluates within every budget, and to a value beyond the limit as soon as there are more than 16,384
      subcommands: plain positional arguments are charged nowhere. */
  lemma {:induction false} PlainArgumentsOverflow(n: nat, env: Env, lib: Library)
    requires MAX_SEQUENCE_ITEMS < n <= 29_000
    ensures Den(PlainCall(n), env, Table(lib)).Ok? && !Bounded(Den(PlainCall(n), env, Table(lib)).value)
    ensures Fits(START, Meter(PlainCall(n), env, Table(lib)).use) && Meter(PlainCall(n), env, Table(lib)).use.wide
  {
    hide Table, Meter, MeterElements, MeterKeywords;
    var e := PlainCall(n);
    PlainArgumentsAreSmall(n);
    LiteralElements(e, PlainArguments(n), e.args, true, [], env, Table(lib));
    assert [] + PlainArguments(n) == PlainArguments(n);
    NoKeywords(e, env, Table(lib));
    PlainFrom(e, n, env, lib, MeterElements(e, e.args, true, [], env, Table(lib)),
      MeterKeywords(e, e.keywords, [], env, Table(lib)));
  }

  // ---- One flag too many --------------------------------------------------------------------------------------

  function Flag(i: nat): Value
    requires i < MAX_SEQUENCE_ITEMS
  {
    Str([(0x100 + i) as char])
  }

  /** As many different one-character flags as a set may have. */
  function Flags(n: nat): (r: seq<Value>)
    requires n <= MAX_SEQUENCE_ITEMS
    ensures |r| == n && forall i :: 0 <= i < n ==> r[i] == Flag(i)
  {
    seq(n, i requires 0 <= i < n => Flag(i))
  }

  lemma {:induction false} FlagIsNew(n: nat)
    requires n < MAX_SEQUENCE_ITEMS
    ensures !Among(Flag(n), Flags(n))
  {
    var flags, flag := Flags(n), Flag(n);
    forall i | 0 <= i < |flags| ensures !Equal(flag, flags[i]) {
      assert flag.s[0] != flags[i].s[0];
    }
  }

  lemma {:induction false} FlagsAreDistinct(n: nat)
    requires n <= MAX_SEQUENCE_ITEMS
    ensures Distinct(Flags(n)) == Flags(n)
  {
    var flags := Flags(n);
    if n > 0 {
      FlagsAreDistinct(n - 1);
      assert flags[..|flags| - 1] == Flags(n - 1);
      FlagIsNew(n - 1);
      assert Flags(n - 1) + [Flag(n - 1)] == flags;
    } else {
      assert flags == [];
    }
  }

  /** The set of those flags. */
  function FlagSet(n: nat): Expr
    requires n <= MAX_SEQUENCE_ITEMS
  {
    Display(SetDisplay, Constants(Flags(n)))
  }

  lemma {:induction false} FlagSetMeter(n: nat, env: Env, lib: Library)
    requires n <= MAX_SEQUENCE_ITEMS
    ensures Meter(FlagSet(n), env, Table(lib)).result == Ok(FrozenSet(Flags(n)))
    ensures AtMost(Meter(FlagSet(n), env, Table(lib)).use, n + 1, n, 4 * n, 2)
  {
    hide Meter, MeterElements;
    var e, flags := FlagSet(n), Flags(n);
    LiteralElements(e, flags, e.elts, false, [], env, Table(lib));
    assert [] + flags == flags;
    FlagsAreDistinct(n);
    SetMeter(e, flags, env, Table(lib), MeterElements(e, e.elts, false, [], env, Table(lib)), 4 * n);
  }

  /** `executable_matcher("a", required_flags={...})`. */
  function FlaggedCall(n: nat): Expr
    requires n <= MAX_SEQUENCE_ITEMS
  {
    Call(Some("executable_matcher"), [Const(Str("a"))], [Keyword(Some(FLAGS), FlagSet(n))])
  }

  function FlaggedNode(n: nat): Value
    requires n <= MAX_SEQUENCE_ITEMS
  {
    Matcher("executable.v1", Dict(BaseConfig(ExecutableNames("a"), []) + [(Str(FLAGS), List(Flags(n)))]), [], None,
      None)
  }

  /** What comes last stays last. */
  lemma {:induction false} SortedLast(front: seq<Value>, last: Value)
    requires front != [] && Sorted(front) == front && !Before(last, front[|front| - 1])
    ensures Sorted(front + [last]) == front + [last]
  {
    var items := front + [last];
    assert items[..|items| - 1] == front && items[|items| - 1] == last;
    assert SortedBy(items, Before) == Insert(last, SortedBy(front, Before), Before);
  }

  lemma {:induction false} SortedOne(v: Value)
    ensures Sorted([v]) == [v]
  {
    assert [v][..0] == [] && SortedBy([], Before) == [];
    assert SortedBy([v], Before) == Insert(v, [], Before);
  }

  lemma {:induction false} FlagsAreSorted(n: nat)
    requires n <= MAX_SEQUENCE_ITEMS
    ensures Sorted(Flags(n)) == Flags(n)
  {
    hide Sorted, Before;
    var flags := Flags(n);
    if n > 1 {
      FlagsAreSorted(n - 1);
      assert !Before(Flag(n - 1), Flag(n - 2)) by {
        FlagsGrow(n - 1);
      }
      SortedLast(Flags(n - 1), Flag(n - 1));
      assert Flags(n - 1) + [Flag(n - 1)] == flags;
    } else if n == 1 {
      SortedOne(Flag(0));
      assert flags == [Flag(0)];
    } else {
      NoneSorted();
      assert flags == [];
    }
  }

  lemma {:induction false} NoneSorted()
    ensures Sorted([]) == []
  {
  }

  lemma {:induction false} FlagsGrow(i: nat)
    requires 0 < i < MAX_SEQUENCE_ITEMS
    ensures !Before(Flag(i), Flag(i - 1))
  {
    assert Flag(i).s[0] > Flag(i - 1).s[0];
  }

  /** The set of flags is stored as their list. */
  lemma {:induction false} FlagsAreStored(n: nat, lib: Library)
    requires 0 < n <= MAX_SEQUENCE_ITEMS
    ensures var v := FrozenSet(Flags(n));
            !Skipped(v) && Setting(v, true, lib) == List(Flags(n)) && !SettingRaises(v, true, lib)
  {
    var flags := Flags(n);
    FlagsAreSorted(n);
    assert AllStrings(flags);
    assert AllRendered(flags, lib);
    RenderedList(flags, lib);
    forall i | 0 <= i < |flags| ensures !JsonRaises(flags[i], lib) {
      assert Children(flags[i]) == [];
    }
  }

  lemma {:induction false} PutFlags(names: seq<Value>, w: Value)
    ensures Put(BaseConfig(names, []), FLAGS, w) == BaseConfig(names, []) + [(Str(FLAGS), w)]
  {
    var base := BaseConfig(names, []);
    assert |"executables"| == 11 && |"subcommands"| == 11 && |FLAGS| == 14;
    assert base[1..][1..] == [] && base == [base[0]] + [base[1]] && base[1..] == [base[1]];
    assert Put([], FLAGS, w) == [(Str(FLAGS), w)];
    assert Put(base[1..], FLAGS, w) == [base[1]] + Put(base[1..][1..], FLAGS, w);
    assert Put(base, FLAGS, w) == [base[0]] + Put(base[1..], FLAGS, w);
  }

  lemma {:induction false} FlaggedApplies(n: nat, positional: seq<Value>, keywords: Fields, lib: Library)
    requires 0 < n <= MAX_SEQUENCE_ITEMS
    requires positional == [Str("a")] && keywords == [(FLAGS, FrozenSet(Flags(n)))]
    ensures ApplyExecutable(positional, keywords, lib) == Ok(FlaggedNode(n))
  {
    hide SETTINGS, Configured, Setting, SettingRaises, Skipped, BaseConfig, SettingsRaise, Put;
    OtherSettings();
    FlagsAreStored(n, lib);
    assert Named(keywords, FLAGS) == Some(FrozenSet(Flags(n)));
    forall i | 1 <= i < |SETTINGS| ensures Named(keywords, SETTINGS[i].0).None? {
      assert keywords[1..] == [];
    }
    NoneRaises(keywords, lib);
    FirstSetting(BaseConfig(ExecutableNames("a"), []), keywords, SETTINGS, lib);
    PutFlags(ExecutableNames("a"), List(Flags(n)));
    assert positional[1..] == [];
    assert |"a"| == 1 && |"a" + ".cmd"| == 5 && |"a" + ".exe"| == 5;
  }

  lemma {:induction false} FlaggedOf(e: Expr, n: nat, env: Env, lib: Library, a: Metered<Value>, flags: Metered<Value>)
    requires 0 < n <= MAX_SEQUENCE_ITEMS && e.Call? && e.func == Some("executable_matcher")
    requires |e.args| == 1 && !e.args[0].Starred? && |e.keywords| == 1 && e.keywords[0].name == Some(FLAGS)
    requires a == Meter(e.args[0], env, Table(lib)) && a.result == Ok(Str("a")) && AtMost(a.use, 1, 0, 4, 1)
    requires flags == Meter(e.keywords[0].value, env, Table(lib)) && flags.result == Ok(FrozenSet(Flags(n)))
             && AtMost(flags.use, n + 1, n, 4 * n, 2)
    ensures Meter(e, env, Table(lib)).result == Ok(FlaggedNode(n))
            && AtMost(Meter(e, env, Table(lib)).use, n + 3, n, 4 * n + 4, 3)
  {
    hide Meter, MeterElements, MeterKeywords, Table;
    hide ApplyExecutable, FlaggedNode;
    TableCalls([Str("a")], [(FLAGS, FrozenSet(Flags(n)))], lib);
    OneElement(e, e.args, true, env, Table(lib), Str("a"));
    OneKeyword(e, e.keywords, env, Table(lib), FrozenSet(Flags(n)));
    var p, k := MeterElements(e, e.args, true, [], env, Table(lib)), MeterKeywords(e, e.keywords, [], env, Table(lib));
    FlaggedApplies(n, p.result.value, k.result.value, lib);
    CallMeter(e, env, Table(lib), p, k, n + 2, n, 4 * n + 4, 2);
  }

  lemma {:induction false} FlaggedCallMeter(n: nat, env: Env, lib: Library)
    requires 0 < n <= MAX_SEQUENCE_ITEMS
    ensures Meter(FlaggedCall(n), env, Table(lib)).result == Ok(FlaggedNode(n))
    ensures AtMost(Meter(FlaggedCall(n), env, Table(lib)).use, n + 3, n, 4 * n + 4, 3)
  {
    TextMeter(Str("a"), env, Table(lib));
    FlagSetMeter(n, env, lib);
    FlaggedOf(FlaggedCall(n), n, env, lib, Meter(Const(Str("a")), env, Table(lib)), Meter(FlagSet(n), env, Table(lib)));
  }

  /** `AnyMatcher((executable_matcher("a", required_flags={...}),))`. */
  function TupleExpr(n: nat): Expr
    requires n <= MAX_SEQUENCE_ITEMS
  {
    Display(TupleDisplay, [FlaggedCall(n)])
  }

  function GroupExpr(n: nat): Expr
    requires n <= MAX_SEQUENCE_ITEMS
  {
    Call(Some("AnyMatcher"), [TupleExpr(n)], [])
  }

  function GroupNode(n: nat): Value
    requires n <= MAX_SEQUENCE_ITEMS
  {
    Matcher("any.v1", Dict([]), [FlaggedNode(n)], None, None)
  }

  lemma {:induction false} TupleMeter(n: nat, env: Env, lib: Library)
    requires 0 < n <= MAX_SEQUENCE_ITEMS
    ensures Meter(TupleExpr(n), env, Table(lib)).result == Ok(Tuple([FlaggedNode(n)]))
    ensures AtMost(Meter(TupleExpr(n), env, Table(lib)).use, n + 4, n + 1, 4 * n + 4, 4)
  {
    hide Table, FlaggedNode, FlagSet, MeterElements;
    var e := TupleExpr(n);
    FlaggedCallMeter(n, env, lib);
    OneElement(e, e.elts, false, env, Table(lib), FlaggedNode(n));
    var m := MeterElements(e, e.elts, false, [], env, Table(lib));
    assert MeterBody(e, env, Table(lib))
           == Charge(Length(1), Metered(Ok(Tuple(m.result.value)), Join(m.use, Items(1))));
  }

  lemma {:induction false} NodeIsMatcher(n: nat)
    requires n <= MAX_SEQUENCE_ITEMS
    ensures FlaggedNode(n).Matcher?
  {
  }

  lemma {:induction false} GroupApplies(n: nat, positional: seq<Value>)
    requires n <= MAX_SEQUENCE_ITEMS && positional == [Tuple([FlaggedNode(n)])]
    ensures ApplyGroup("any.v1", positional, []) == Ok(GroupNode(n))
  {
    hide FlaggedNode;
    assert FlaggedNode(n).Matcher? by {
      NodeIsMatcher(n);
    }
  }

  lemma {:induction false} GroupOf(e: Expr, n: nat, env: Env, lib: Library, children: Metered<Value>)
    requires 0 < n <= MAX_SEQUENCE_ITEMS && e.Call? && e.func == Some("AnyMatcher")
    requires |e.args| == 1 && !e.args[0].Starred? && e.keywords == []
    requires children == Meter(e.args[0], env, Table(lib)) && children.result == Ok(Tuple([FlaggedNode(n)]))
    requires AtMost(children.use, n + 4, n + 1, 4 * n + 4, 4)
    ensures Meter(e, env, Table(lib)).result == Ok(GroupNode(n))
    ensures AtMost(Meter(e, env, Table(lib)).use, n + 5, n + 1, 4 * n + 4, 5)
  {
    hide Meter, MeterElements, MeterKeywords, Table, ApplyGroup, FlaggedNode, GroupNode;
    TableCalls([Tuple([FlaggedNode(n)])], [], lib);
    OneElement(e, e.args, true, env, Table(lib), Tuple([FlaggedNode(n)]));
    NoKeywords(e, env, Table(lib));
    var p, k := MeterElements(e, e.args, true, [], env, Table(lib)), MeterKeywords(e, e.keywords, [], env, Table(lib));
    GroupApplies(n, p.result.value);
    CallMeter(e, env, Table(lib), p, k, n + 4, n + 1, 4 * n + 4, 4);
  }

  lemma {:induction false} GroupMeter(n: nat, env: Env, lib: Library)
    requires 0 < n <= MAX_SEQUENCE_ITEMS
    ensures Meter(GroupExpr(n), env, Table(lib)).result == Ok(GroupNode(n))
    ensures AtMost(Meter(GroupExpr(n), env, Table(lib)).use, n + 5, n + 1, 4 * n + 4, 5)
  {
    hide Meter, Table, FlaggedCall, FlaggedNode, GroupNode;
    TupleMeter(n, env, lib);
    GroupOf(GroupExpr(n), n, env, lib, Meter(TupleExpr(n), env, Table(lib)));
  }

  const EXTRA := "--x"

  /** `with_required_flag(AnyMatcher(...), "--x")`. */
  function FlagExpr(n: nat): Expr
    requires n <= MAX_SEQUENCE_ITEMS
  {
    Call(Some("with_required_flag"), [GroupExpr(n), Const(Str(EXTRA))], [])
  }

  lemma {:induction false} FlagsOfNode(n: nat)
    requires n <= MAX_SEQUENCE_ITEMS
    ensures FlaggedNode(n).config.Dict? && GetOr(FlaggedNode(n).config.pairs, FLAGS) == List(Flags(n))
  {
    var pairs := FlaggedNode(n).config.pairs;
    assert pairs[0].0 == Str("executables") && pairs[1].0 == Str("subcommands")
           && pairs[2] == (Str(FLAGS), List(Flags(n)));
    assert |"executables"| == 11 && |"subcommands"| == 11 && |FLAGS| == 14;
    assert pairs[1..][0] == pairs[1] && pairs[1..][1..][0] == pairs[2];
    assert Get(pairs[1..][1..], FLAGS) == Some(List(Flags(n)));
    assert Get(pairs[1..], FLAGS) == Some(List(Flags(n)));
  }

  lemma {:induction false} ExtraIsNew(n: nat)
    requires n <= MAX_SEQUENCE_ITEMS
    ensures !Among(Str(EXTRA), Flags(n)) && AllStrings(Flags(n) + [Str(EXTRA)])
  {
    var flags := Flags(n);
    forall i | 0 <= i < |flags| ensures !Equal(Str(EXTRA), flags[i]) {
      assert |flags[i].s| == 1;
    }
  }

  lemma {:induction false} SetOfFlags(n: nat)
    requires n <= MAX_SEQUENCE_ITEMS
    ensures SetOf(List(Flags(n))) == Ok(Flags(n))
  {
    FlagsAreDistinct(n);
  }

  /** One flag more than the child has. */
  lemma {:induction false} OneMoreFlag(n: nat)
    requires n <= MAX_SEQUENCE_ITEMS
    ensures WithMember(FlaggedNode(n).config.pairs, FLAGS, EXTRA) == Ok(Flags(n) + [Str(EXTRA)])
    ensures AllStrings(Flags(n) + [Str(EXTRA)])
  {
    FlagsOfNode(n);
    SetOfFlags(n);
    ExtraIsNew(n);
  }

  lemma {:induction false} ChildClones(n: nat, lib: Library)
    requires n <= MAX_SEQUENCE_ITEMS
    ensures CloneChild(FlaggedNode(n), AddFlag(EXTRA, None), lib).Ok?
    ensures n == MAX_SEQUENCE_ITEMS ==> ChildFull(FlaggedNode(n).config.pairs, AddFlag(EXTRA, None))
  {
    OneMoreFlag(n);
  }

  lemma {:induction false} OneChild(group: Value, node: Value, change: Change, lib: Library)
    requires Clonable(group) && node.Matcher? && group.matchers == [node] && CloneChild(node, change, lib).Ok?
    ensures Clone(group, change, lib).Ok?
    ensures node.config.Dict? && ChildFull(node.config.pairs, change) ==> CloneWidens(group, change)
  {
    var children := group.matchers;
    assert children[..|children| - 1] == [] && children[|children| - 1] == node;
    assert CloneChildren(children[..|children| - 1], change, lib) == Ok([]);
    assert node.config.Dict? && ChildFull(node.config.pairs, change) ==> group.matchers[0] == node;
  }

  lemma {:induction false} FlagArguments(n: nat, env: Env, lib: Library)
    requires 0 < n <= MAX_SEQUENCE_ITEMS
    ensures var m := MeterElements(FlagExpr(n), FlagExpr(n).args, true, [], env, Table(lib));
            m.result == Ok([GroupNode(n), Str(EXTRA)]) && AtMost(m.use, n + 6, n + 1, 4 * n + 16, 5)
  {
    hide Table, MeterElements, TupleExpr, GroupNode;
    var e := FlagExpr(n);
    GroupMeter(n, env, lib);
    TextMeter(Str(EXTRA), env, Table(lib));
    TwoElements(e, e.args, env, Table(lib), GroupNode(n), Str(EXTRA));
  }

  lemma {:induction false} FlagRequested(n: nat, positional: seq<Value>)
    requires n <= MAX_SEQUENCE_ITEMS && positional == [GroupNode(n), Str(EXTRA)]
    ensures FlagRequest(positional, []) == Some((GroupNode(n), AddFlag(EXTRA, None)))
  {
  }

  lemma {:induction false} FlagApplies(positional: seq<Value>, lib: Library)
    requires positional == [GroupNode(MAX_SEQUENCE_ITEMS), Str(EXTRA)]
    ensures ApplyFlag(positional, [], lib).Ok? && !Bounded(ApplyFlag(positional, [], lib).value)
    ensures CloneWidens(GroupNode(MAX_SEQUENCE_ITEMS), AddFlag(EXTRA, None))
  {
    var n, change := MAX_SEQUENCE_ITEMS, AddFlag(EXTRA, None);
    FlagRequested(n, positional);
    ChildClones(n, lib);
    OneChild(GroupNode(n), FlaggedNode(n), change, lib);
    GroupNodeBounded(n);
    CloneBounded(GroupNode(n), change, lib);
  }

  lemma {:induction false} FlagFrom(e: Expr, env: Env, lib: Library, p: Metered<seq<Value>>, k: Metered<Fields>)
    requires e.Call? && e.func == Some("with_required_flag")
    requires p == MeterElements(e, e.args, true, [], env, Table(lib))
             && k == MeterKeywords(e, e.keywords, [], env, Table(lib))
    requires p.result == Ok([GroupNode(MAX_SEQUENCE_ITEMS), Str(EXTRA)]) && k == Metered(Ok([]), NOTHING)
    requires var n := MAX_SEQUENCE_ITEMS; AtMost(p.use, n + 6, n + 1, 4 * n + 16, 5)
    ensures Den(e, env, Table(lib)).Ok? && !Bounded(Den(e, env, Table(lib)).value)
    ensures Fits(START, Meter(e, env, Table(lib)).use) && Meter(e, env, Table(lib)).use.wide
  {
    var n := MAX_SEQUENCE_ITEMS;
    hide Meter, MeterElements, MeterKeywords, Table;
    hide ApplyFlag, GroupNode, CloneWidens;
    TableCalls(p.result.value, k.result.value, lib);
    FlagApplies(p.result.value, lib);
    FlagRequested(n, p.result.value);
    CallMeter(e, env, Table(lib), p, k, n + 6, n + 1, 4 * n + 16, 5);
  }

  /** A child that has as many flags as the limit allows gets one more: every argument is within the limit,
      every budget is kept, and the value is beyond the limit. */
  lemma {:induction false} OneFlagTooMany(env: Env, lib: Library)
    ensures var e := FlagExpr(MAX_SEQUENCE_ITEMS);
            && Den(e, env, Table(lib)).Ok? && !Bounded(Den(e, env, Table(lib)).value)
            && Fits(START, Meter(e, env, Table(lib)).use) && Meter(e, env, Table(lib)).use.wide
  {
    hide Table, Meter, MeterElements, MeterKeywords, GroupExpr, GroupNode;
    var e := FlagExpr(MAX_SEQUENCE_ITEMS);
    FlagArguments(MAX_SEQUENCE_ITEMS, env, lib);
    NoKeywords(e, env, Table(lib));
    FlagFrom(e, env, lib, MeterElements(e, e.args, true, [], env, Table(lib)),
      MeterKeywords(e, e.keywords, [], env, Table(lib)));
  }

  lemma {:induction false} OneSettingBounded(op: string, base: seq<(Value, Value)>, key: string, v: Value)
    requires PairsBounded(base) && |base| <= 2 && Bounded(v)
    ensures Bounded(Matcher(op, Dict(base + [(Str(key), v)]), [], None, None))
  {
    var setting := [(Str(key), v)];
    ScalarBounded(Str(key));
    PairsBoundedJoin(base, setting);
    DictBounded(base + setting);
    MatcherBounded(Matcher(op, Dict(base + setting), [], None, None));
  }

  lemma {:induction false} FlaggedNodeBounded(n: nat)
    requires n <= MAX_SEQUENCE_ITEMS
    ensures Bounded(FlaggedNode(n))
  {
    hide Bounded;
    BaseBounded(ExecutableNames("a"), []);
    StringsBounded(Flags(n));
    SequenceBounded(List(Flags(n)));
    OneSettingBounded("executable.v1", BaseConfig(ExecutableNames("a"), []), FLAGS, List(Flags(n)));
  }

  lemma {:induction false} GroupNodeBounded(n: nat)
    requires n <= MAX_SEQUENCE_ITEMS
    ensures Bounded(GroupNode(n))
  {
    FlaggedNodeBounded(n);
    DictBounded([]);
    MatcherBounded(GroupNode(n));
  }
}
