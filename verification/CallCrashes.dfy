/** When a call ends in a Python error: exactly when its guard, told from its arguments, says so. */
module CallCrashes {
  import opened Options
  import opened StaticValues
  import opened PythonValues
  import opened Rendering
  import opened Calls
  import opened Guards

  lemma {:induction false} SortedCrashes(positional: seq<Value>, keywords: Fields)
    ensures ApplySorted(positional, keywords).Crash? <==> SortedRaises(positional, keywords)
  {
    if |positional| == 1 && IsSequence(positional[0]) {
      var items := positional[0].items;
      if !AllStrings(items) && (forall i :: 0 <= i < |items| ==> items[i].Str? || IsNumber(items[i])) {
        var i :| 0 <= i < |items| && !items[i].Str?;
        assert items[i] in items;
      }
      if !AllNumbers(items) && (forall i :: 0 <= i < |items| ==> items[i].Str? || IsNumber(items[i])) {
        var i :| 0 <= i < |items| && !IsNumber(items[i]);
        assert items[i] in items;
      }
      if exists i :: 0 <= i < |items| && !items[i].Str? && !IsNumber(items[i]) {
        var i :| 0 <= i < |items| && !items[i].Str? && !IsNumber(items[i]);
        assert items[i] in items;
      }
    }
  }

  lemma {:induction false} GroupCrashes(op: string, positional: seq<Value>, keywords: Fields)
    ensures ApplyGroup(op, positional, keywords).Crash? <==> GroupRaises(positional, keywords)
  {
    var named := Named(keywords, "matchers");
    if !(positional != [] && named.Some?) && (named.Some? || positional != []) {
      var children := if named.Some? then named.value else positional[0];
      if IsSequence(children) && !AllMatchers(children.items) {
        var i :| 0 <= i < |children.items| && !children.items[i].Matcher?;
        assert children.items[i] in children.items;
      }
    }
  }

  lemma {:induction false} ConfigCrashes(names: seq<Value>, subcommands: seq<Value>, fields: Fields, lib: Library)
    ensures ExecutableConfig(names, subcommands, fields, lib).Crash?
            <==> ProperNames(names) && SettingsRaise(fields, SETTINGS, true, lib)
  {
    hide SettingsRaise, Configured;
  }

  lemma {:induction false} ExecutableCrashes(positional: seq<Value>, keywords: Fields, lib: Library)
    ensures ApplyExecutable(positional, keywords, lib).Crash? <==> ExecutableRaises(positional, keywords, lib)
  {
    hide ExecutableConfig, SettingsRaise;
    if positional != [] && positional[0].Str? {
      var s := positional[0].s;
      ConfigCrashes(ExecutableNames(s), positional[1..], keywords, lib);
      assert |s + ".cmd"| > 0 && |s + ".exe"| > 0;
      assert ProperNames(ExecutableNames(s)) <==> s != "" by {
        assert s == "" ==> ExecutableNames(s)[0] == Str("");
      }
    }
  }

  lemma {:induction false} ExecutableConstructorCrashes(positional: seq<Value>, keywords: Fields, lib: Library)
    ensures ApplyExecutableConstructor(positional, keywords, lib).Crash?
            <==> ExecutableConstructorRaises(positional, keywords, lib)
  {
    hide ExecutableConfig, SettingsRaise, OnlyNamed, CONSTRUCTOR_FIELDS;
    match ConstructorFields(positional, keywords, ["executables"])
    case Ok(fields) =>
      if Strings(Given(fields, "executables")) && Strings(Subcommands(fields)) {
        ConfigCrashes(Given(fields, "executables").items, Subcommands(fields).items, fields, lib);
      }
    case _ =>
  }

  // ---- Safe variants -------------------------------------------------------------------------------------

  lemma {:induction false} EqualToText(a: Value, b: Value)
    requires Equal(a, b)
    ensures a.Str? <==> b.Str?
  {
  }

  lemma {:induction false} DistinctTexts(items: seq<Value>)
    ensures AllStrings(Distinct(items)) <==> AllStrings(items)
  {
    if items != [] {
      var front, last := items[..|items| - 1], items[|items| - 1];
      DistinctTexts(front);
      var kept := Distinct(front);
      if Among(last, kept) {
        var i :| 0 <= i < |kept| && Equal(last, kept[i]);
        EqualToText(last, kept[i]);
      } else {
        assert (kept + [last])[|kept|] == last;
        assert forall i :: 0 <= i < |kept| ==> (kept + [last])[i] == kept[i];
      }
      assert forall i :: 0 <= i < |front| ==> items[i] == front[i];
    }
  }

  lemma {:induction false} IterableIterates(v: Value)
    ensures Iterate(v).Ok? <==> Iterable(v)
    ensures !Iterate(v).Crash?
  {
  }

  /** One more text in a set that is then sorted. */
  lemma {:induction false} MembersCrash(config: seq<(Value, Value)>, key: string, member: string)
    ensures var members := WithMember(config, key, member);
            && !members.Reject?
            && ((members.Crash? || SortedStrings(members.value).Crash?) <==> MembersRaise(GetOr(config, key)))
            && (members.Ok? ==> !SortedStrings(members.value).Reject?)
  {
    var v := GetOr(config, key);
    IterableIterates(v);
    if Iterable(v) {
      var items := Iterate(v).value;
      DistinctTexts(items);
      if AllStrings(items) {
        assert forall i :: 0 <= i < |items| ==> Hashable(items[i]);
      } else {
        var i :| 0 <= i < |items| && !items[i].Str?;
        assert items[i] in items;
      }
      if SetOf(v).Ok? {
        var set_ := SetOf(v).value;
        assert AllStrings(Adding(set_, Str(member))) <==> AllStrings(set_) by {
          assert forall i :: 0 <= i < |set_| ==> (set_ + [Str(member)])[i] == set_[i];
        }
      }
    }
  }

  lemma {:induction false} TuplesCrash(items: seq<Value>)
    ensures !Tuples(items).Reject?
    ensures Tuples(items).Ok? <==> forall i :: 0 <= i < |items| ==> Iterable(items[i])
    ensures Tuples(items).Ok? ==> |Tuples(items).value| == |items|
    ensures Tuples(items).Ok? ==> forall i :: 0 <= i < |items| ==>
            Tuples(items).value[i] == Tuple(Iterate(items[i]).value)
  {
    if items != [] {
      TuplesCrash(items[..|items| - 1]);
      IterableIterates(items[|items| - 1]);
    }
  }

  lemma {:induction false} TuplesOfCrash(v: Value)
    ensures !TuplesOf(v).Reject? && (TuplesOf(v).Crash? <==> TuplesRaise(v))
    ensures TuplesOf(v).Ok? ==>
              ((exists i :: 0 <= i < |TuplesOf(v).value| && !Hashable(TuplesOf(v).value[i]))
               <==> exists w :: w in Iterate(v).value && Unhashable(w))
  {
    IterableIterates(v);
    if Iterable(v) {
      var items := Iterate(v).value;
      TuplesCrash(items);
      if exists w :: w in items && !Iterable(w) {
        var w :| w in items && !Iterable(w);
        var i :| 0 <= i < |items| && items[i] == w;
      }
      if Tuples(items).Ok? {
        TuplesHash(items);
      }
    }
  }

  lemma {:induction false} TuplesHash(items: seq<Value>)
    requires Tuples(items).Ok?
    ensures (exists i :: 0 <= i < |Tuples(items).value| && !Hashable(Tuples(items).value[i]))
            <==> exists w :: w in items && Unhashable(w)
  {
    TuplesCrash(items);
    var tuples := Tuples(items).value;
    forall i | 0 <= i < |items| ensures Hashable(tuples[i]) <==> !Unhashable(items[i]) {
      var inner := Iterate(items[i]).value;
      assert tuples[i] == Tuple(inner);
      if !Hashable(tuples[i]) {
        var k :| 0 <= k < |inner| && !Hashable(inner[k]);
        assert inner[k] in inner;
      }
    }
    if w :| w in items && Unhashable(w) {
      var i :| 0 <= i < |items| && items[i] == w;
      assert !Hashable(tuples[i]);
    }
    if i :| 0 <= i < |tuples| && !Hashable(tuples[i]) {
      assert items[i] in items && Unhashable(items[i]);
    }
  }

  lemma {:induction false} PairsCrash(config: seq<(Value, Value)>, flag: string, inverse: string, lib: Library)
    ensures var pairs := WithPair(config, flag, inverse);
            && !pairs.Reject?
            && ((pairs.Crash? || InOrder(pairs.value, lib).Crash?)
                <==> PairsRaise(GetOr(config, PAIRS), Tuple([Str(flag), Str(inverse)]), lib))
  {
    var v, more := GetOr(config, PAIRS), Tuple([Str(flag), Str(inverse)]);
    TuplesOfCrash(v);
    if TuplesOf(v).Ok? {
      var tuples := TuplesOf(v).value;
      assert Hashable(more);
      assert (forall i :: 0 <= i < |tuples + [more]| ==> Hashable((tuples + [more])[i]))
             <==> (forall i :: 0 <= i < |tuples| ==> Hashable(tuples[i])) by {
        assert forall i :: 0 <= i < |tuples| ==> (tuples + [more])[i] == tuples[i];
      }
    }
  }

  lemma {:induction false} ValuesCrash(config: seq<(Value, Value)>, option: string, allowed: seq<Value>, lib: Library)
    ensures var values := WithValues(config, option, allowed);
            && !values.Reject?
            && ((values.Crash? || InOrder(values.value, lib).Crash?)
                <==> ValuesRaise(GetOr(config, OPTION_VALUES), Tuple([Str(option), List(allowed)]), lib))
  {
    TuplesOfCrash(GetOr(config, OPTION_VALUES));
  }

  lemma {:induction false} ChildCrashes(child: Value, change: Change, lib: Library)
    requires child.Matcher?
    ensures !CloneChild(child, change, lib).Reject?
            && (CloneChild(child, change, lib).Crash? <==> ChildRaises(child, change, lib))
  {
    hide MembersRaise, PairsRaise, ValuesRaise, WithMember, WithPair, WithValues, SortedStrings, Put;
    if child.config.Dict? {
      var config := child.config.pairs;
      match change
      case AddFlag(flag, inverse) =>
        MembersCrash(config, FLAGS, flag);
        if inverse.Some? {
          PairsCrash(config, flag, inverse.value, lib);
        }
      case AddOption(option, allowed) =>
        MembersCrash(config, OPTIONS, option);
        ValuesCrash(config, option, allowed, lib);
    }
  }

  ghost predicate SomeRaises(children: seq<Value>, change: Change, lib: Library) {
    exists i :: 0 <= i < |children| && ChildRaises(children[i], change, lib)
  }

  lemma {:induction false} ChildrenCrash(children: seq<Value>, change: Change, lib: Library)
    requires AllMatchers(children)
    ensures !CloneChildren(children, change, lib).Reject?
    ensures CloneChildren(children, change, lib).Crash? <==> SomeRaises(children, change, lib)
  {
    hide ChildRaises, CloneChild;
    if children != [] {
      var front, last := children[..|children| - 1], children[|children| - 1];
      ChildrenCrash(front, change, lib);
      ChildCrashes(last, change, lib);
      assert SomeRaises(children, change, lib)
             <==> SomeRaises(front, change, lib) || ChildRaises(last, change, lib) by {
        assert forall i :: 0 <= i < |front| ==> front[i] == children[i];
        assert children[|front|] == last;
      }
    }
  }

  lemma {:induction false} CloneCrashes(matcher: Value, change: Change, lib: Library)
    ensures Clone(matcher, change, lib).Crash? <==> CloneRaises(matcher, change, lib)
  {
    hide ChildRaises, CloneChildren;
    if Clonable(matcher) {
      ChildrenCrash(matcher.matchers, change, lib);
    }
  }

  lemma {:induction false} VariantCrashes(positional: seq<Value>, keywords: Fields, lib: Library)
    ensures var request := FlagVariantRequest(positional, keywords);
            ApplyFlagVariant(positional, keywords, lib).Crash?
            <==> request.Some? && CloneRaises(request.value.0, request.value.1, lib)
    ensures ApplyOptionVariant(positional, keywords, lib).Crash? <==> OptionVariantRaises(positional, keywords, lib)
  {
    hide CloneRaises, Clone, FlagVariantRequest, OptionVariantRequest;
    match FlagVariantRequest(positional, keywords) {
      case Some((matcher, change)) => CloneCrashes(matcher, change, lib);
      case None =>
    }
    match OptionVariantRequest(positional, keywords) {
      case Some((matcher, option)) =>
        var allowed := Given(keywords, "allowed_values");
        if Strings(allowed) {
          CloneCrashes(matcher, AddOption(option, allowed.items), lib);
        }
      case None =>
    }
  }

  /** Main result on calls: a call raises exactly when its guard says so, and the guard looks at the arguments
      only. */
  lemma {:induction false} CallCrashesIff(name: string, positional: seq<Value>, keywords: Fields, lib: Library)
    ensures Apply(name, positional, keywords, lib).Crash? <==> Raises(name, positional, keywords, lib)
  {
    hide KindOfCall, ApplySorted, ApplyGroup, ApplyExecutable, ApplyExecutableConstructor, SortedRaises, GroupRaises;
    hide ExecutableRaises, ExecutableConstructorRaises, Clone, CloneRaises, FlagRequest, FlagVariantRequest,
         OptionVariantRaises;
    hide ApplyFlagVariant, ApplyOptionVariant, SettingsRaise, FieldsRaise, Configured;
    SortedCrashes(positional, keywords);
    ExecutableCrashes(positional, keywords, lib);
    ExecutableConstructorCrashes(positional, keywords, lib);
    VariantCrashes(positional, keywords, lib);
    match KindOfCall(name)
    case GroupCall(op) => GroupCrashes(op, positional, keywords);
    case FlagCall =>
      match FlagRequest(positional, keywords) {
        case Some((matcher, change)) => CloneCrashes(matcher, change, lib);
        case None =>
      }
    case _ =>
  }
}
