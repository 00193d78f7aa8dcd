/** What a call does beyond its value, told from its arguments alone: whether it leaves the length limit, whether
    it raises, and what it is charged for. */
module Guards {
  import opened Options
  import opened StaticValues
  import opened PythonValues
  import opened Rendering
  import opened Expressions
  import opened Calls

  // ---- The guards of the length limit ------------------------------------------------------------------

  /** A list about to be stored is too long, or one of its tuples is. */
  predicate TooLong(r: Result<seq<Value>>) {
    r.Ok?
      && (|r.value| > MAX_SEQUENCE_ITEMS || exists i :: 0 <= i < |r.value| && SizeOf(r.value[i]) > MAX_SEQUENCE_ITEMS)
  }

  function NewKeys(config: seq<(Value, Value)>, keys: seq<string>): nat {
    if keys == [] then 0
    else NewKeys(config, keys[..|keys| - 1]) + if Get(config, keys[|keys| - 1]).Some? then 0 else 1
  }

  /** One more flag or option does not fit a child that is already full. */
  predicate ChildFull(config: seq<(Value, Value)>, change: Change) {
    match change
    case AddFlag(flag, inverse) =>
      || TooLong(WithMember(config, FLAGS, flag))
      || (inverse.Some? && TooLong(WithPair(config, flag, inverse.value)))
      || (var keys := if inverse.Some? then [FLAGS, FLAGS_ANYWHERE, PAIRS] else [FLAGS, FLAGS_ANYWHERE];
          |config| + NewKeys(config, keys) > MAX_SEQUENCE_ITEMS)
    case AddOption(option, allowed) =>
      || TooLong(WithMember(config, OPTIONS, option))
      || TooLong(WithValues(config, option, allowed))
      || |config| + NewKeys(config, [OPTIONS, OPTION_VALUES]) > MAX_SEQUENCE_ITEMS
  }

  predicate CloneWidens(matcher: Value, change: Change) {
    matcher.Matcher? &&
    exists i :: 0 <= i < |matcher.matchers| && matcher.matchers[i].Matcher? && matcher.matchers[i].config.Dict?
                && ChildFull(matcher.matchers[i].config.pairs, change)
  }

  /** Whether a call goes beyond the length limit, told from its arguments before it is made. */
  predicate Widens(name: string, positional: seq<Value>, keywords: Fields) {
    match KindOfCall(name)
    case ExecutableCall => |positional| > MAX_SEQUENCE_ITEMS + 1
    case ConstructorCall(_, names) =>
      var fields := ConstructorFields(positional, keywords, names);
      fields.Ok? && RecordSize(FieldPairs(fields.value)) > MAX_SEQUENCE_ITEMS
    case NativeCall(_) => |positional| + |keywords| > MAX_SEQUENCE_ITEMS
    case FlagCall =>
      var request := FlagRequest(positional, keywords);
      request.Some? && CloneWidens(request.value.0, request.value.1)
    case FlagVariantCall =>
      var request := FlagVariantRequest(positional, keywords);
      request.Some? && CloneWidens(request.value.0, request.value.1)
    case OptionVariantCall =>
      var request, allowed := OptionVariantRequest(positional, keywords), AsSequence(Given(keywords, "allowed_values"));
      request.Some? && allowed.Ok? && CloneWidens(request.value.0, AddOption(request.value.1, allowed.value))
    case _ => false
  }

  // ---- The guards of raising -----------------------------------------------------------------------------

  predicate LiteralRaises(positional: seq<Value>, keywords: Fields) {
    |positional| == 1 && keywords == [] && !IsSequence(positional[0])
  }

  /** No sequence, or a mixture of texts and numbers. */
  predicate SortedRaises(positional: seq<Value>, keywords: Fields) {
    && |positional| == 1 && keywords == []
    && (!IsSequence(positional[0]) ||
        (&& (forall v :: v in positional[0].items ==> v.Str? || IsNumber(v))
         && (exists v :: v in positional[0].items && v.Str?) && (exists v :: v in positional[0].items && IsNumber(v))))
  }

  predicate GroupRaises(positional: seq<Value>, keywords: Fields) {
    var named := Named(keywords, "matchers");
    && !(positional != [] && named.Some?) && (named.Some? || positional != [])
    && var children := if named.Some? then named.value else positional[0];
    && !children.Null? && (!IsSequence(children) || exists v :: v in children.items && !v.Matcher?)
  }

  predicate PipelineRaises(positional: seq<Value>, keywords: Fields) {
    var producer, consumer := Named(keywords, "producer"), Named(keywords, "consumer");
    && positional == [] && |keywords| == 2 && producer.Some? && consumer.Some?
    && !(producer.value.Matcher? && consumer.value.Matcher?)
  }

  predicate ExecutableRaises(positional: seq<Value>, keywords: Fields, lib: Library) {
    && positional != [] && AllStrings(positional) && positional[0].s != "" && OnlyNamed(keywords, EXECUTABLE_FIELDS)
    && SettingsRaise(keywords, SETTINGS, true, lib)
  }

  predicate ExecutableConstructorRaises(positional: seq<Value>, keywords: Fields, lib: Library) {
    var fields := ConstructorFields(positional, keywords, ["executables"]);
    && fields.Ok? && Strings(Given(fields.value, "executables"))
    && (!Strings(Subcommands(fields.value)) ||
        (&& OnlyNamed(fields.value, CONSTRUCTOR_FIELDS) && ProperNames(Given(fields.value, "executables").items)
         && SettingsRaise(fields.value, SETTINGS, true, lib)))
  }

  predicate PathSetRaises(positional: seq<Value>, keywords: Fields, lib: Library) {
    var fields := ConstructorFields(positional, keywords, ["executable", "paths"]);
    && fields.Ok? && PathFieldsAllowed(fields.value)
    && (JsonRaises(Given(fields.value, "paths"), lib) || SettingsRaise(fields.value, PATH_SETTINGS, false, lib))
  }

  predicate NativeRaises(spec: Spec, positional: seq<Value>, keywords: Fields, lib: Library) {
    var fields := ConstructorFields(positional, keywords, spec.names);
    fields.Ok? && SpecFieldsAllowed(spec, fields.value) && FieldsRaise(fields.value, lib)
  }

  predicate Iterable(v: Value) {
    IsSequence(v) || v.Dict? || v.Str?
  }

  /** A value that is no collection of texts cannot take one more text and be sorted. */
  predicate MembersRaise(v: Value) {
    !Iterable(v) || exists w :: w in Iterate(v).value && !w.Str?
  }

  predicate TuplesRaise(v: Value) {
    !Iterable(v) || exists w :: w in Iterate(v).value && !Iterable(w)
  }

  predicate Unhashable(v: Value) {
    Iterable(v) && exists w :: w in Iterate(v).value && !Hashable(w)
  }

  predicate PairsRaise(v: Value, more: Value, lib: Library) {
    || TuplesRaise(v) || (exists w :: w in Iterate(v).value && Unhashable(w))
    || (TuplesOf(v).Ok? && !Orderable(Distinct(TuplesOf(v).value + [more]), lib))
  }

  predicate ValuesRaise(v: Value, more: Value, lib: Library) {
    TuplesRaise(v) || (TuplesOf(v).Ok? && !Orderable(TuplesOf(v).value + [more], lib))
  }

  /** What a child already has cannot be cloned with one more flag or option. */
  predicate ChildRaises(child: Value, change: Change, lib: Library) {
    child.Matcher? &&
    (!child.config.Dict? ||
     var config := child.config.pairs;
     match change
     case AddFlag(flag, inverse) =>
       || MembersRaise(GetOr(config, FLAGS))
       || (inverse.Some? && PairsRaise(GetOr(config, PAIRS), Tuple([Str(flag), Str(inverse.value)]), lib))
     case AddOption(option, allowed) =>
       || MembersRaise(GetOr(config, OPTIONS))
       || ValuesRaise(GetOr(config, OPTION_VALUES), Tuple([Str(option), List(allowed)]), lib))
  }

  predicate CloneRaises(matcher: Value, change: Change, lib: Library) {
    Clonable(matcher) && exists i :: 0 <= i < |matcher.matchers| && ChildRaises(matcher.matchers[i], change, lib)
  }

  predicate OptionVariantRaises(positional: seq<Value>, keywords: Fields, lib: Library) {
    var request, allowed := OptionVariantRequest(positional, keywords), Given(keywords, "allowed_values");
    request.Some? && (!Strings(allowed) || CloneRaises(request.value.0, AddOption(request.value.1, allowed.items), lib))
  }

  /** Whether a call raises, told from its arguments before it is made. */
  predicate Raises(name: string, positional: seq<Value>, keywords: Fields, lib: Library) {
    match KindOfCall(name)
    case TupleCall => LiteralRaises(positional, keywords)
    case ListCall => LiteralRaises(positional, keywords)
    case SetCall => LiteralRaises(positional, keywords)
    case SortedCall => SortedRaises(positional, keywords)
    case ExecutableCall => ExecutableRaises(positional, keywords, lib)
    case GroupCall(_) => GroupRaises(positional, keywords)
    case PipelineCall => PipelineRaises(positional, keywords)
    case FlagCall =>
      var request := FlagRequest(positional, keywords);
      request.Some? && CloneRaises(request.value.0, request.value.1, lib)
    case FlagVariantCall =>
      var request := FlagVariantRequest(positional, keywords);
      request.Some? && CloneRaises(request.value.0, request.value.1, lib)
    case OptionVariantCall => OptionVariantRaises(positional, keywords, lib)
    case ExecutableConstructorCall => ExecutableConstructorRaises(positional, keywords, lib)
    case PathSetCall => PathSetRaises(positional, keywords, lib)
    case NativeCall(spec) => NativeRaises(spec, positional, keywords, lib)
    case _ => false
  }

  // ---- The table the evaluator uses ----------------------------------------------------------------------

  /** The items a call is charged for: only literal calls and `sorted` are. */
  function Charged(name: string, positional: seq<Value>, keywords: Fields): Option<nat> {
    var kind := KindOfCall(name);
    if (IsLiteralCall(kind) || (kind.SortedCall? && !ApplySorted(positional, keywords).Reject?))
       && |positional| == 1 && keywords == [] && AsSequence(positional[0]).Ok?
    then Some(|AsSequence(positional[0]).value|)
    else None
  }

  function Table(lib: Library): CallTable {
    CallTable((name, positional, keywords) => Apply(name, positional, keywords, lib), Charged, Widens,
              (name, positional, keywords) => Raises(name, positional, keywords, lib))
  }
}
