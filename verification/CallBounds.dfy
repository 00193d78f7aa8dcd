/** Which calls keep values within the length limit: exactly those within their guard. */
module CallBounds {
  import opened Options
  import opened StaticValues
  import opened PythonValues
  import opened Expressions
  import opened Bounds
  import opened Widths
  import opened Rendering
  import opened RenderedValues
  import opened Calls
  import opened Guards

  // ---- Calls ------------------------------------------------------------------------------------------

  lemma {:induction false} LiteralBounded(kind: CallKind, items: seq<Value>)
    requires IsLiteralCall(kind) && AllBounded(items) && |items| <= MAX_SEQUENCE_ITEMS && Literal(kind, items).Ok?
    ensures Bounded(Literal(kind, items).value)
  {
    if kind.SetCall? {
      DistinctBounded(items);
    } else {
      SequenceBounded(Literal(kind, items).value);
    }
  }

  lemma {:induction false} StringsBounded(items: seq<Value>)
    requires AllStrings(items)
    ensures AllBounded(items)
  {
  }

  // ---- Executable matchers --------------------------------------------------------------------------------

  lemma {:induction false} GivenBounded(keywords: Fields, name: string)
    requires FieldsBounded(keywords)
    ensures Bounded(Given(keywords, name))
  {
    if Named(keywords, name).Some? {
      NamedBounded(keywords, name);
    }
  }

  lemma {:induction false} SettingBounded(v: Value, sorts: bool, lib: Library)
    requires Bounded(v)
    ensures Bounded(Setting(v, sorts, lib))
  {
    RenderingKeepsTheLimit(v, lib);
    if sorts && v.FrozenSet? {
      SequenceBounded(v);
      SequenceBounded(List(v.items));
      OrderKeeps(v.items, Ordered(v.items, lib));
      RenderingKeepsTheLimit(List(Ordered(v.items, lib)), lib);
    }
  }

  /** Settings are few and within the limit. */
  lemma {:induction false} ConfiguredBounded(
    config: seq<(Value, Value)>, fields: Fields, mapping: seq<(string, string)>, sorts: bool, lib: Library)
    requires PairsBounded(config) && FieldsBounded(fields)
    ensures PairsBounded(Configured(config, fields, mapping, sorts, lib))
  {
    if mapping != [] {
      var front, v := mapping[..|mapping| - 1], Given(fields, mapping[|mapping| - 1].0);
      ConfiguredBounded(config, fields, front, sorts, lib);
      GivenBounded(fields, mapping[|mapping| - 1].0);
      SettingBounded(v, sorts, lib);
      PutBounded(Configured(config, fields, front, sorts, lib), mapping[|mapping| - 1].1, Setting(v, sorts, lib));
    }
  }

  lemma {:induction false} ConfiguredSize(
    config: seq<(Value, Value)>, fields: Fields, mapping: seq<(string, string)>, sorts: bool, lib: Library)
    ensures |Configured(config, fields, mapping, sorts, lib)| <= |config| + |mapping|
  {
    if mapping != [] {
      ConfiguredSize(config, fields, mapping[..|mapping| - 1], sorts, lib);
    }
  }

  /** What is under a key that no setting is stored under stays. */
  lemma {:induction false} ConfiguredKeeps(
    config: seq<(Value, Value)>, fields: Fields, mapping: seq<(string, string)>, sorts: bool, lib: Library, key: string,
    w: Value)
    requires (Str(key), w) in config && forall i :: 0 <= i < |mapping| ==> mapping[i].1 != key
    ensures (Str(key), w) in Configured(config, fields, mapping, sorts, lib)
  {
    if mapping != [] {
      var front, v := mapping[..|mapping| - 1], Given(fields, mapping[|mapping| - 1].0);
      ConfiguredKeeps(config, fields, front, sorts, lib, key, w);
      if !Skipped(v) {
        PutKeepsUnbounded(Configured(config, fields, front, sorts, lib), mapping[|mapping| - 1].1,
          Setting(v, sorts, lib), key, w);
      }
    }
  }

  lemma {:induction false} TargetsAreOthers()
    ensures |SETTINGS| <= 13 && forall i :: 0 <= i < |SETTINGS| ==> SETTINGS[i].1 != "subcommands"
  {
  }

  lemma {:induction false} NamesBounded(names: seq<Value>)
    requires AllStrings(names) && |names| <= MAX_SEQUENCE_ITEMS
    ensures Bounded(List(Sorted(Distinct(names))))
  {
    StringsBounded(names);
    MembersBounded(names, Distinct(names));
    SequenceBounded(List(Distinct(names)));
    OrderKeeps(Distinct(names), Sorted(Distinct(names)));
  }

  lemma {:induction false} BaseBounded(names: seq<Value>, subcommands: seq<Value>)
    requires AllStrings(names) && |names| <= MAX_SEQUENCE_ITEMS && AllStrings(subcommands)
    ensures PairsBounded(BaseConfig(names, subcommands)) <==> |subcommands| <= MAX_SEQUENCE_ITEMS
    ensures Bounded(List(subcommands)) <==> |subcommands| <= MAX_SEQUENCE_ITEMS
  {
    NamesBounded(names);
    StringsBounded(subcommands);
    SequenceBounded(List(subcommands));
    ScalarBounded(Str("executables"));
    ScalarBounded(Str("subcommands"));
    var base := BaseConfig(names, subcommands);
    assert base[0] == (Str("executables"), List(Sorted(Distinct(names))))
           && base[1] == (Str("subcommands"), List(subcommands));
  }

  lemma {:induction false} ConfigBounded(names: seq<Value>, subcommands: seq<Value>, fields: Fields, lib: Library)
    requires AllStrings(names) && |names| <= MAX_SEQUENCE_ITEMS && AllStrings(subcommands) && FieldsBounded(fields)
    requires ExecutableConfig(names, subcommands, fields, lib).Ok?
    ensures Bounded(ExecutableConfig(names, subcommands, fields, lib).value) <==> |subcommands| <= MAX_SEQUENCE_ITEMS
  {
    var base := BaseConfig(names, subcommands);
    var config := Configured(base, fields, SETTINGS, true, lib);
    hide SETTINGS, Configured;
    BaseBounded(names, subcommands);
    TargetsAreOthers();
    ConfiguredSize(base, fields, SETTINGS, true, lib);
    DictBounded(config);
    MatcherBounded(ExecutableConfig(names, subcommands, fields, lib).value);
    if |subcommands| <= MAX_SEQUENCE_ITEMS {
      ConfiguredBounded(base, fields, SETTINGS, true, lib);
    } else {
      assert base[1] in base;
      ConfiguredKeeps(base, fields, SETTINGS, true, lib, "subcommands", List(subcommands));
      UnboundedPair(config, "subcommands", List(subcommands));
    }
  }

  /** Exactly when `executable_matcher` stays within the limit: the executable and at most 16,384
      subcommands after it. Plain positional arguments are charged nowhere. */
  lemma {:induction false} ExecutableBounded(positional: seq<Value>, keywords: Fields, lib: Library)
    requires FieldsBounded(keywords) && ApplyExecutable(positional, keywords, lib).Ok?
    ensures Bounded(ApplyExecutable(positional, keywords, lib).value) <==> |positional| <= MAX_SEQUENCE_ITEMS + 1
  {
    hide ExecutableConfig;
    assert AllStrings(ExecutableNames(positional[0].s)) && AllStrings(positional[1..]);
    ConfigBounded(ExecutableNames(positional[0].s), positional[1..], keywords, lib);
  }

  /** Positional arguments and keywords together. */
  lemma {:induction false} AllFieldsBounded(positional: seq<Value>, keywords: Fields, names: seq<string>)
    requires AllBounded(positional) && FieldsBounded(keywords) && ConstructorFields(positional, keywords, names).Ok?
    ensures var fields := ConstructorFields(positional, keywords, names).value;
            |fields| == |positional| + |keywords| && FieldsBounded(fields) && PairsBounded(FieldPairs(fields))
  {
    var fields := ConstructorFields(positional, keywords, names).value;
    forall i | 0 <= i < |fields| ensures Bounded(fields[i].1) && Bounded(FieldPairs(fields)[i].0) {
      assert i < |positional| ==> fields[i].1 == positional[i];
      assert i >= |positional| ==> fields[i] == keywords[i - |positional|];
      ScalarBounded(Str(fields[i].0));
    }
  }

  lemma {:induction false} StringsSequence(v: Value)
    requires Bounded(v) && Strings(v)
    ensures |v.items| <= MAX_SEQUENCE_ITEMS
  {
    SequenceBounded(v);
  }

  lemma {:induction false} ExecutableConstructorBounded(positional: seq<Value>, keywords: Fields, lib: Library)
    requires AllBounded(positional) && FieldsBounded(keywords)
             && ApplyExecutableConstructor(positional, keywords, lib).Ok?
    ensures Bounded(ApplyExecutableConstructor(positional, keywords, lib).value)
  {
    hide ExecutableConfig;
    var fields := ConstructorFields(positional, keywords, ["executables"]).value;
    AllFieldsBounded(positional, keywords, ["executables"]);
    GivenBounded(fields, "executables");
    StringsSequence(Given(fields, "executables"));
    if Named(fields, "subcommands").Some? {
      NamedBounded(fields, "subcommands");
      StringsSequence(Subcommands(fields));
    }
    ConfigBounded(Given(fields, "executables").items, Subcommands(fields).items, fields, lib);
  }

  lemma {:induction false} TwoEntries(a: string, v: Value, b: string, w: Value)
    requires Bounded(v) && Bounded(w)
    ensures Bounded(Dict([(Str(a), v), (Str(b), w)]))
  {
    ScalarBounded(Str(a));
    ScalarBounded(Str(b));
    DictBounded([(Str(a), v), (Str(b), w)]);
  }

  lemma {:induction false} ArgumentBounded(positional: seq<Value>, keywords: Fields)
    requires AllBounded(positional) && FieldsBounded(keywords) && ApplyArgument(positional, keywords).Ok?
    ensures Bounded(ApplyArgument(positional, keywords).value)
  {
    hide Bounded, Sorted, Distinct;
    var names := ["executables", "required_arguments"];
    var fields := ConstructorFields(positional, keywords, names).value;
    AllFieldsBounded(positional, keywords, names);
    GivenBounded(fields, "executables");
    GivenBounded(fields, "required_arguments");
    var executables, required := Given(fields, "executables"), Given(fields, "required_arguments");
    StringsSequence(executables);
    StringsSequence(required);
    NamesBounded(executables.items);
    NamesBounded(required.items);
    TwoEntries("executables", List(Sorted(Distinct(executables.items))), "required_arguments",
      List(Sorted(Distinct(required.items))));
    MatcherBounded(ApplyArgument(positional, keywords).value);
  }

  lemma {:induction false} PathSetBounded(positional: seq<Value>, keywords: Fields, lib: Library)
    requires AllBounded(positional) && FieldsBounded(keywords) && ApplyPathSet(positional, keywords, lib).Ok?
    ensures Bounded(ApplyPathSet(positional, keywords, lib).value)
  {
    var fields := ConstructorFields(positional, keywords, ["executable", "paths"]).value;
    AllFieldsBounded(positional, keywords, ["executable", "paths"]);
    GivenBounded(fields, "paths");
    var names, paths := ExecutableNames(Given(fields, "executable").s), Json(Given(fields, "paths"), lib);
    var base := [(Str("executables"), List(names)), (Str("paths"), paths)];
    RenderingKeepsTheLimit(Given(fields, "paths"), lib);
    StringsBounded(names);
    SequenceBounded(List(names));
    ScalarBounded(Str("executables"));
    ScalarBounded(Str("paths"));
    assert PairsBounded(base);
    ConfiguredBounded(base, fields, PATH_SETTINGS, false, lib);
    ConfiguredSize(base, fields, PATH_SETTINGS, false, lib);
    DictBounded(Configured(base, fields, PATH_SETTINGS, false, lib));
    MatcherBounded(ApplyPathSet(positional, keywords, lib).value);
  }

  lemma {:induction false} NativeBounded(spec: Spec, positional: seq<Value>, keywords: Fields, lib: Library)
    requires AllBounded(positional) && FieldsBounded(keywords) && ApplyNative(spec, positional, keywords, lib).Ok?
    ensures Bounded(ApplyNative(spec, positional, keywords, lib).value)
            <==> |positional| + |keywords| <= MAX_SEQUENCE_ITEMS
  {
    var fields := ConstructorFields(positional, keywords, spec.names).value;
    AllFieldsBounded(positional, keywords, spec.names);
    DictBounded(FieldPairs(fields));
    RenderingKeepsTheLimit(Dict(FieldPairs(fields)), lib);
    MatcherBounded(ApplyNative(spec, positional, keywords, lib).value);
  }

  /** Exactly when a record stays within the limit; its kind counts. */
  lemma {:induction false} ConstructorBounded(kind: string, names: seq<string>, positional: seq<Value>,
      keywords: Fields)
    requires AllBounded(positional) && FieldsBounded(keywords)
    requires ApplyConstructor(kind, names, positional, keywords).Ok?
    ensures Bounded(ApplyConstructor(kind, names, positional, keywords).value) <==>
            RecordSize(FieldPairs(ConstructorFields(positional, keywords, names).value)) <= MAX_SEQUENCE_ITEMS
  {
    var fields := ConstructorFields(positional, keywords, names).value;
    AllFieldsBounded(positional, keywords, names);
    ConstructedBounded(kind, Dict(FieldPairs(fields)));
    DictBounded(FieldPairs(fields));
  }

  // ---- Groups and literal calls ---------------------------------------------------------------------------

  lemma {:induction false} GroupBounded(op: string, positional: seq<Value>, keywords: Fields)
    requires AllBounded(positional) && FieldsBounded(keywords) && ApplyGroup(op, positional, keywords).Ok?
    ensures Bounded(ApplyGroup(op, positional, keywords).value)
  {
    var named := Named(keywords, "matchers");
    if named.Some? {
      NamedBounded(keywords, "matchers");
    }
    var children := if named.Some? then named.value else positional[0];
    SequenceItemsBounded(children);
    DictBounded([]);
    MatcherBounded(ApplyGroup(op, positional, keywords).value);
  }

  lemma {:induction false} PipelineBounded(positional: seq<Value>, keywords: Fields)
    requires FieldsBounded(keywords) && ApplyPipeline(positional, keywords).Ok?
    ensures Bounded(ApplyPipeline(positional, keywords).value)
  {
    NamedBounded(keywords, "producer");
    NamedBounded(keywords, "consumer");
    DictBounded([]);
    MatcherBounded(ApplyPipeline(positional, keywords).value);
  }

  lemma {:induction false} ApplyLiteralBounded(kind: CallKind, positional: seq<Value>, keywords: Fields)
    requires IsLiteralCall(kind) && AllBounded(positional) && ApplyLiteral(kind, positional, keywords).Ok?
    ensures Bounded(ApplyLiteral(kind, positional, keywords).value)
  {
    if positional == [] {
      LiteralBounded(kind, []);
    } else {
      SequenceItemsBounded(positional[0]);
      LiteralBounded(kind, AsSequence(positional[0]).value);
    }
  }

  // ---- Safe variants --------------------------------------------------------------------------------------

  lemma {:induction false} GetBounded(pairs: seq<(Value, Value)>, key: string)
    requires PairsBounded(pairs)
    ensures Bounded(GetOr(pairs, key))
  {
    if pairs == [] || Get(pairs, key).None? {
      SequenceBounded(List([]));
    } else if pairs[0].0 != Str(key) {
      GetBounded(pairs[1..], key);
    }
  }

  lemma {:induction false} PairsBoundedCons(p: (Value, Value), rest: seq<(Value, Value)>)
    ensures PairsBounded([p] + rest) <==> Bounded(p.0) && Bounded(p.1) && PairsBounded(rest)
  {
    var all := [p] + rest;
    assert all[0] == p && forall i :: 0 <= i < |rest| ==> all[i + 1] == rest[i];
    if Bounded(p.0) && Bounded(p.1) && PairsBounded(rest) {
      forall i | 0 <= i < |all| ensures Bounded(all[i].0) && Bounded(all[i].1) {
        assert i > 0 ==> all[i] == rest[i - 1];
      }
    }
  }

  lemma {:induction false} PutBounded(pairs: seq<(Value, Value)>, key: string, v: Value)
    requires PairsBounded(pairs)
    ensures PairsBounded(Put(pairs, key, v)) <==> Bounded(v)
  {
    ScalarBounded(Str(key));
    if pairs == [] {
      PairsBoundedCons((Str(key), v), []);
      assert [(Str(key), v)] + [] == [(Str(key), v)];
    } else {
      assert [pairs[0]] + pairs[1..] == pairs;
      PairsBoundedCons(pairs[0], pairs[1..]);
      if pairs[0].0 == Str(key) {
        PairsBoundedCons((Str(key), v), pairs[1..]);
      } else {
        PutBounded(pairs[1..], key, v);
        PairsBoundedCons(pairs[0], Put(pairs[1..], key, v));
      }
    }
  }

  /** What is already stored is kept when another value does not fit. */
  lemma {:induction false} PutKeepsUnbounded(pairs: seq<(Value, Value)>, key: string, v: Value, other: string, w: Value)
    requires (Str(other), w) in pairs && other != key
    ensures (Str(other), w) in Put(pairs, key, v)
  {
    if pairs[0].0 != Str(key) && pairs[0] != (Str(other), w) {
      PutKeepsUnbounded(pairs[1..], key, v, other, w);
    }
  }

  lemma {:induction false} UnboundedPair(pairs: seq<(Value, Value)>, key: string, w: Value)
    requires (Str(key), w) in pairs && !Bounded(w)
    ensures !PairsBounded(pairs)
  {
    var i :| 0 <= i < |pairs| && pairs[i] == (Str(key), w);
  }

  lemma {:induction false} SortedStringsBounded(items: seq<Value>)
    requires SortedStrings(items).Ok?
    ensures Bounded(SortedStrings(items).value) <==> |items| <= MAX_SEQUENCE_ITEMS
  {
    StringsBounded(items);
    SequenceBounded(List(items));
    OrderKeeps(items, Sorted(items));
  }

  /** A stored list of strings is within the limit exactly when the guard says so. */
  lemma {:induction false} MemberBounded(config: seq<(Value, Value)>, key: string, member: string)
    requires PairsBounded(config) && WithMember(config, key, member).Ok?
             && SortedStrings(WithMember(config, key, member).value).Ok?
    ensures Bounded(SortedStrings(WithMember(config, key, member).value).value)
            <==> !TooLong(WithMember(config, key, member))
  {
    var items := WithMember(config, key, member).value;
    assert forall i :: 0 <= i < |items| ==> SizeOf(items[i]) == 0;
    SortedStringsBounded(items);
  }

  lemma {:induction false} TuplesBounded(items: seq<Value>)
    requires AllBounded(items) && Tuples(items).Ok?
    ensures |Tuples(items).value| == |items|
    ensures forall i :: 0 <= i < |items| ==>
              Tuples(items).value[i].Tuple? && AllBounded(Tuples(items).value[i].items)
  {
    if items != [] {
      TuplesBounded(items[..|items| - 1]);
      IterateBounded(items[|items| - 1]);
    }
  }

  /** Tuples of bounded items are bounded exactly when none is too long. */
  lemma {:induction false} TuplesFit(tuples: seq<Value>)
    requires forall i :: 0 <= i < |tuples| ==> tuples[i].Tuple? && AllBounded(tuples[i].items)
    ensures AllBounded(tuples) <==> forall i :: 0 <= i < |tuples| ==> SizeOf(tuples[i]) <= MAX_SEQUENCE_ITEMS
  {
    forall i | 0 <= i < |tuples| ensures Bounded(tuples[i]) <==> SizeOf(tuples[i]) <= MAX_SEQUENCE_ITEMS {
      SequenceBounded(tuples[i]);
    }
  }

  ghost predicate AreTuples(items: seq<Value>) {
    forall v :: v in items ==> v.Tuple? && AllBounded(v.items)
  }

  lemma {:induction false} TuplesOfBounded(v: Value)
    requires Bounded(v) && TuplesOf(v).Ok?
    ensures AreTuples(TuplesOf(v).value)
  {
    IterateBounded(v);
    TuplesBounded(Iterate(v).value);
  }

  lemma {:induction false} WithPairTuples(config: seq<(Value, Value)>, flag: string, inverse: string)
    requires PairsBounded(config) && WithPair(config, flag, inverse).Ok?
    ensures AreTuples(WithPair(config, flag, inverse).value)
  {
    GetBounded(config, PAIRS);
    TuplesOfBounded(GetOr(config, PAIRS));
  }

  lemma {:induction false} WithValuesTuples(config: seq<(Value, Value)>, option: string, allowed: seq<Value>)
    requires PairsBounded(config) && WithValues(config, option, allowed).Ok?
    requires AllStrings(allowed) && |allowed| <= MAX_SEQUENCE_ITEMS
    ensures AreTuples(WithValues(config, option, allowed).value)
  {
    GetBounded(config, OPTION_VALUES);
    TuplesOfBounded(GetOr(config, OPTION_VALUES));
    StringsBounded(allowed);
    SequenceBounded(List(allowed));
  }

  /** A list put in order is within the limit exactly when the guard says so. */
  lemma {:induction false} OrderedBounded(items: seq<Value>, lib: Library)
    requires AreTuples(items) && InOrder(items, lib).Ok?
    ensures Bounded(InOrder(items, lib).value) <==> !TooLong(Ok(items))
  {
    assert forall i :: 0 <= i < |items| ==> items[i] in items;
    TuplesFit(items);
    SequenceBounded(List(items));
    OrderKeeps(items, Ordered(items, lib));
  }

  lemma {:induction false} NewKeysTwo(config: seq<(Value, Value)>, a: string, b: string)
    ensures NewKeys(config, [a, b]) == (if Get(config, a).Some? then 0 else 1) + if Get(config, b).Some? then 0 else 1
  {
    assert [a, b][..1] == [a] && [a][..0] == [];
    assert NewKeys(config, [a]) == if Get(config, a).Some? then 0 else 1;
  }

  lemma {:induction false} NewKeysThree(config: seq<(Value, Value)>, a: string, b: string, c: string)
    ensures NewKeys(config, [a, b, c]) == NewKeys(config, [a, b]) + if Get(config, c).Some? then 0 else 1
  {
    assert [a, b, c][..2] == [a, b];
  }

  lemma {:induction false} GetPut(pairs: seq<(Value, Value)>, key: string, v: Value, other: string)
    requires key != other
    ensures Get(Put(pairs, key, v), other) == Get(pairs, other)
  {
    if pairs != [] {
      if pairs[0].0 == Str(key) {
        assert Put(pairs, key, v)[1..] == pairs[1..];
      } else {
        assert Put(pairs, key, v)[1..] == Put(pairs[1..], key, v);
        GetPut(pairs[1..], key, v, other);
      }
    }
  }

  lemma {:induction false} PutSizes(config: seq<(Value, Value)>, a: string, v: Value, b: string, w: Value)
    requires a != b
    ensures |Put(Put(config, a, v), b, w)| == |config| + NewKeys(config, [a, b])
  {
    GetPut(config, a, v, b);
    NewKeysTwo(config, a, b);
  }

  /** Two values stored under different keys: both have to be bounded. */
  lemma {:induction false} TwoPutsBounded(config: seq<(Value, Value)>, a: string, v: Value, b: string, w: Value)
    requires PairsBounded(config) && a != b
    ensures PairsBounded(Put(Put(config, a, v), b, w)) <==> Bounded(v) && Bounded(w)
  {
    PutBounded(config, a, v);
    if Bounded(v) {
      PutBounded(Put(config, a, v), b, w);
    } else {
      PutKeepsUnbounded(Put(config, a, v), b, w, a, v);
      UnboundedPair(Put(Put(config, a, v), b, w), a, v);
    }
  }

  lemma {:induction false} OrderedPut(config: seq<(Value, Value)>, key: string, items: Result<seq<Value>>, lib: Library)
      returns (v: Value)
    requires PutOrdered(config, key, items, lib).Ok? && AreTuples(items.value)
    ensures PutOrdered(config, key, items, lib).value == Put(config, key, v) && (Bounded(v) <==> !TooLong(items))
  {
    v := InOrder(items.value, lib).value;
    OrderedBounded(items.value, lib);
  }

  lemma {:induction false} OptionConfigBounded(config: seq<(Value, Value)>, option: string, allowed: seq<Value>,
      lib: Library)
    requires PairsBounded(config) && OptionConfig(config, option, allowed, lib).Ok?
    requires AllStrings(allowed) && |allowed| <= MAX_SEQUENCE_ITEMS
    ensures Bounded(Dict(OptionConfig(config, option, allowed, lib).value))
            <==> !ChildFull(config, AddOption(option, allowed))
  {
    var options := SortedStrings(WithMember(config, OPTIONS, option).value).value;
    MemberBounded(config, OPTIONS, option);
    WithValuesTuples(config, option, allowed);
    var v := OrderedPut(Put(config, OPTIONS, options), OPTION_VALUES, WithValues(config, option, allowed), lib);
    PutSizes(config, OPTIONS, options, OPTION_VALUES, v);
    TwoPutsBounded(config, OPTIONS, options, OPTION_VALUES, v);
    DictBounded(OptionConfig(config, option, allowed, lib).value);
  }

  lemma {:induction false} FlaggedBounded(config: seq<(Value, Value)>, flag: string)
    requires PairsBounded(config) && WithMember(config, FLAGS, flag).Ok?
             && SortedStrings(WithMember(config, FLAGS, flag).value).Ok?
    ensures var flags := SortedStrings(WithMember(config, FLAGS, flag).value).value;
            var flagged := Put(Put(config, FLAGS, flags), FLAGS_ANYWHERE, Bool(true));
            && |flagged| == |config| + NewKeys(config, [FLAGS, FLAGS_ANYWHERE])
            && (PairsBounded(flagged) <==> !TooLong(WithMember(config, FLAGS, flag)))
            && Get(flagged, PAIRS) == Get(config, PAIRS)
            && (Str(FLAGS), flags) in flagged && (Bounded(flags) <==> !TooLong(WithMember(config, FLAGS, flag)))
  {
    var flags := SortedStrings(WithMember(config, FLAGS, flag).value).value;
    MemberBounded(config, FLAGS, flag);
    PutSizes(config, FLAGS, flags, FLAGS_ANYWHERE, Bool(true));
    ScalarBounded(Bool(true));
    TwoPutsBounded(config, FLAGS, flags, FLAGS_ANYWHERE, Bool(true));
    GetPut(config, FLAGS, flags, PAIRS);
    GetPut(Put(config, FLAGS, flags), FLAGS_ANYWHERE, Bool(true), PAIRS);
    PutKeepsUnbounded(Put(config, FLAGS, flags), FLAGS_ANYWHERE, Bool(true), FLAGS, flags);
  }

  lemma {:induction false} FlagConfigBounded(config: seq<(Value, Value)>, flag: string, inverse: Option<string>,
      lib: Library)
    requires PairsBounded(config) && FlagConfig(config, flag, inverse, lib).Ok?
    ensures Bounded(Dict(FlagConfig(config, flag, inverse, lib).value)) <==> !ChildFull(config, AddFlag(flag, inverse))
  {
    hide Bounded, NewKeys, WithPair, WithMember;
    FlaggedBounded(config, flag);
    var flags := SortedStrings(WithMember(config, FLAGS, flag).value).value;
    var flagged := Put(Put(config, FLAGS, flags), FLAGS_ANYWHERE, Bool(true));
    DictBounded(FlagConfig(config, flag, inverse, lib).value);
    if inverse.Some? {
      WithPairTuples(config, flag, inverse.value);
      var v := OrderedPut(flagged, PAIRS, WithPair(config, flag, inverse.value), lib);
      NewKeysThree(config, FLAGS, FLAGS_ANYWHERE, PAIRS);
      if PairsBounded(flagged) {
        PutBounded(flagged, PAIRS, v);
      } else {
        PutKeepsUnbounded(flagged, PAIRS, v, FLAGS, flags);
        UnboundedPair(Put(flagged, PAIRS, v), FLAGS, flags);
      }
    }
  }

  predicate ChangeBounded(change: Change) {
    change.AddOption? ==> AllStrings(change.allowed) && |change.allowed| <= MAX_SEQUENCE_ITEMS
  }

  predicate Full(child: Value, change: Change) {
    child.Matcher? && child.config.Dict? && ChildFull(child.config.pairs, change)
  }

  lemma {:induction false} CloneChildBounded(child: Value, change: Change, lib: Library)
    requires ChangeBounded(change) && child.Matcher? && Bounded(child) && CloneChild(child, change, lib).Ok?
    ensures Bounded(CloneChild(child, change, lib).value) <==> !Full(child, change)
  {
    MatcherBounded(child);
    DictBounded(child.config.pairs);
    if change.AddFlag? {
      FlagConfigBounded(child.config.pairs, change.flag, change.inverse, lib);
    } else {
      OptionConfigBounded(child.config.pairs, change.option, change.allowed, lib);
    }
    MatcherBounded(CloneChild(child, change, lib).value);
  }

  ghost predicate NoneFull(children: seq<Value>, change: Change) {
    forall i :: 0 <= i < |children| ==> !Full(children[i], change)
  }

  lemma {:induction false} LastOfAll(front: seq<Value>, last: Value, change: Change)
    ensures AllBounded(front + [last]) <==> AllBounded(front) && Bounded(last)
    ensures NoneFull(front + [last], change) <==> NoneFull(front, change) && !Full(last, change)
  {
    var all := front + [last];
    assert all[|front|] == last && forall i :: 0 <= i < |front| ==> all[i] == front[i];
  }

  lemma {:induction false} CloneChildrenBounded(children: seq<Value>, change: Change, lib: Library)
    requires ChangeBounded(change) && AllMatchers(children) && AllBounded(children)
    requires CloneChildren(children, change, lib).Ok?
    ensures |CloneChildren(children, change, lib).value| == |children|
    ensures AllBounded(CloneChildren(children, change, lib).value) <==> NoneFull(children, change)
  {
    if children != [] {
      var front, last := children[..|children| - 1], children[|children| - 1];
      assert children == front + [last];
      CloneChildrenBounded(front, change, lib);
      CloneChildBounded(last, change, lib);
      LastOfAll(front, last, change);
      LastOfAll(CloneChildren(front, change, lib).value, CloneChild(last, change, lib).value, change);
    }
  }

  lemma {:induction false} CloneBounded(matcher: Value, change: Change, lib: Library)
    requires ChangeBounded(change) && Bounded(matcher) && Clone(matcher, change, lib).Ok?
    ensures Bounded(Clone(matcher, change, lib).value) <==> !CloneWidens(matcher, change)
  {
    MatcherBounded(matcher);
    CloneChildrenBounded(matcher.matchers, change, lib);
    DictBounded([]);
    MatcherBounded(Clone(matcher, change, lib).value);
    assert CloneWidens(matcher, change)
           <==> exists i :: 0 <= i < |matcher.matchers| && Full(matcher.matchers[i], change);
  }

  lemma {:induction false} VariantBounded(keywords: Fields, m: Value)
    requires FieldsBounded(keywords)
    ensures Bounded(Variant(keywords, Ok(m)).value) <==> Bounded(m)
  {
    GivenBounded(keywords, "variant_id");
    GivenBounded(keywords, "title");
    var pairs :=
      [(Str("variant_id"), Given(keywords, "variant_id")), (Str("title"), Given(keywords, "title")),
        (Str("matcher"), m)];
    ConstructedBounded("safe_variant", Dict(pairs));
    assert RecordSize(pairs) <= 4;
    DictBounded(pairs);
    assert pairs[2] == (Str("matcher"), m);
  }

  lemma {:induction false} FlagBounded(positional: seq<Value>, keywords: Fields, lib: Library)
    requires AllBounded(positional) && ApplyFlag(positional, keywords, lib).Ok?
    ensures var (matcher, change) := FlagRequest(positional, keywords).value;
            Bounded(ApplyFlag(positional, keywords, lib).value) <==> !CloneWidens(matcher, change)
  {
    var (matcher, change) := FlagRequest(positional, keywords).value;
    CloneBounded(matcher, change, lib);
  }

  lemma {:induction false} FlagVariantBounded(positional: seq<Value>, keywords: Fields, lib: Library)
    requires AllBounded(positional) && FieldsBounded(keywords) && ApplyFlagVariant(positional, keywords, lib).Ok?
    ensures var (matcher, change) := FlagVariantRequest(positional, keywords).value;
            Bounded(ApplyFlagVariant(positional, keywords, lib).value) <==> !CloneWidens(matcher, change)
  {
    var (matcher, change) := FlagVariantRequest(positional, keywords).value;
    GivenBounded(keywords, "matcher");
    CloneBounded(matcher, change, lib);
    VariantBounded(keywords, Clone(matcher, change, lib).value);
  }

  lemma {:induction false} OptionVariantBounded(positional: seq<Value>, keywords: Fields, lib: Library)
    requires AllBounded(positional) && FieldsBounded(keywords) && ApplyOptionVariant(positional, keywords, lib).Ok?
    ensures var (matcher, option) := OptionVariantRequest(positional, keywords).value;
            var allowed := AsSequence(Given(keywords, "allowed_values")).value;
            Bounded(ApplyOptionVariant(positional, keywords, lib).value)
            <==> !CloneWidens(matcher, AddOption(option, allowed))
  {
    var (matcher, option) := OptionVariantRequest(positional, keywords).value;
    var allowed := AsSequence(Given(keywords, "allowed_values")).value;
    GivenBounded(keywords, "matcher");
    GivenBounded(keywords, "allowed_values");
    SequenceItemsBounded(Given(keywords, "allowed_values"));
    CloneBounded(matcher, AddOption(option, allowed), lib);
    VariantBounded(keywords, Clone(matcher, AddOption(option, allowed), lib).value);
  }

  predicate HasGuard(kind: CallKind) {
    || kind.ExecutableCall? || kind.ConstructorCall? || kind.NativeCall?
    || kind.FlagCall? || kind.FlagVariantCall? || kind.OptionVariantCall?
  }

  /** The calls that have no guard keep values within the limit. */
  lemma {:induction false} PlainCallBounded(name: string, positional: seq<Value>, keywords: Fields, lib: Library)
    requires AllBounded(positional) && FieldsBounded(keywords) && Apply(name, positional, keywords, lib).Ok?
    requires !HasGuard(KindOfCall(name))
    ensures Bounded(Apply(name, positional, keywords, lib).value)
  {
    hide KindOfCall;
    var kind := KindOfCall(name);
    if IsLiteralCall(kind) {
      ApplyLiteralBounded(kind, positional, keywords);
    } else if kind.SortedCall? {
      SequenceItemsBounded(positional[0]);
      var items := AsSequence(positional[0]).value;
      SequenceBounded(List(items));
      OrderKeeps(items, Sorted(items));
    } else if kind.NamesCall? {
      SequenceBounded(FrozenSet(ExecutableNames(positional[0].s)));
    } else if kind.GroupCall? {
      GroupBounded(kind.op, positional, keywords);
    } else if kind.PipelineCall? {
      PipelineBounded(positional, keywords);
    } else if kind.ExecutableConstructorCall? {
      ExecutableConstructorBounded(positional, keywords, lib);
    } else if kind.ArgumentCall? {
      ArgumentBounded(positional, keywords);
    } else if kind.PathSetCall? {
      PathSetBounded(positional, keywords, lib);
    }
  }

  /** Main result on calls: with bounded arguments a call that returns goes beyond the limit exactly when its
      guard says so, and the guard looks at the arguments only. */
  lemma {:induction false} CallBoundedIff(name: string, positional: seq<Value>, keywords: Fields, lib: Library)
    requires AllBounded(positional) && FieldsBounded(keywords) && Apply(name, positional, keywords, lib).Ok?
    ensures Bounded(Apply(name, positional, keywords, lib).value) <==> !Widens(name, positional, keywords)
  {
    hide KindOfCall;
    var kind := KindOfCall(name);
    if kind.ExecutableCall? {
      ExecutableBounded(positional, keywords, lib);
    } else if kind.ConstructorCall? {
      ConstructorBounded(kind.kind, kind.names, positional, keywords);
    } else if kind.NativeCall? {
      NativeBounded(kind.spec, positional, keywords, lib);
    } else if kind.FlagCall? {
      FlagBounded(positional, keywords, lib);
    } else if kind.FlagVariantCall? {
      FlagVariantBounded(positional, keywords, lib);
    } else if kind.OptionVariantCall? {
      OptionVariantBounded(positional, keywords, lib);
    } else {
      PlainCallBounded(name, positional, keywords, lib);
    }
  }

  /** So the evaluator's own table of calls is guarded. */
  lemma {:induction false} TableIsGuarded(lib: Library)
    ensures Guarded(Table(lib))
  {
    var table := Table(lib);
    forall name, positional, keywords |
      AllBounded(positional) && FieldsBounded(keywords) && table.apply(name, positional, keywords).Ok?
      ensures Bounded(table.apply(name, positional, keywords).value) <==> !table.widens(name, positional, keywords)
    {
      CallBoundedIff(name, positional, keywords, lib);
    }
  }
}
