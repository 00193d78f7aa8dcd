/** Calls of the reviewed constructors and helpers, once their arguments are values. */
module Calls {
  import opened Options
  import opened StaticValues
  import opened PythonValues
  import opened Rendering

  /** A native matcher: its operation, its fields in positional order, and those it requires. */
  datatype Spec = Spec(op: string, names: seq<string>, required: seq<string>)

  datatype CallKind =
    | TupleCall | ListCall | SetCall | SortedCall | NamesCall | ExecutableCall | GroupCall(op: string)
    | PipelineCall | ConstructorCall(kind: string, names: seq<string>)
    | FlagCall | FlagVariantCall | OptionVariantCall
    | ExecutableConstructorCall | ArgumentCall | PathSetCall | NativeCall(spec: Spec) | OtherCall

  function KindOfCall(name: string): CallKind {
    if name == "tuple" then TupleCall
    else if name == "list" then ListCall
    else if name == "set" || name == "frozenset" then SetCall
    else if name == "sorted" then SortedCall
    else if name == "executable_names" then NamesCall
    else if name == "executable_matcher" then ExecutableCall
    else if name == "AnyMatcher" then GroupCall("any.v1")
    else if name == "AllMatcher" then GroupCall("all.v1")
    else if name == "PipelineMatcher" then PipelineCall
    else if name == "CommandSafeVariant" then ConstructorCall("safe_variant", ["variant_id", "title", "matcher"])
    else if name == "CommandSafetyRule" then ConstructorCall("rule", [])
    else if name == "CommandExtensionSpec" then ConstructorCall("extension", [])
    else if name == "with_required_flag" then FlagCall
    else if name == "safe_flag_variant" then FlagVariantCall
    else if name == "safe_option_variant" then OptionVariantCall
    else if name == "ExecutableMatcher" then ExecutableConstructorCall
    else if name == "ArgumentMatcher" then ArgumentCall
    else if name == "executable_path_set_matcher" then PathSetCall
    else match NativeSpec(name)
      case Some(spec) => NativeCall(spec)
      case None => OtherCall
  }

  /** `_NATIVE_MATCHER_SPECS`. */
  function NativeSpec(name: string): Option<Spec> {
    if name == "ExecutablePathSetMatcher" then
      Some(Spec("executable-path-set.v1",
                ["executables", "required_flags", "forbidden_flags", "allow_leading_options",
                 "leading_options_with_values", "interspersed_options_with_values", "interspersed_flags",
                 "options_with_values", "inverse_flag_pairs", "required_option_values",
                 "required_flags_in_all_arguments", "fail_secure_unknown_options", "paths"],
                ["executables", "paths"]))
    else if name == "ArgumentCommandMatcher" then
      Some(Spec("argument-command.v1",
                ["executables", "command", "minimum_abbreviation_length", "minimum_position"],
                ["executables", "command", "minimum_abbreviation_length"]))
    else if name == "CommandSequenceMatcher" then
      Some(Spec("command-sequence.v1",
                ["executables", "command_arities", "target_commands", "options_with_values", "forbidden_flags"],
                ["executables", "command_arities", "target_commands"]))
    else if name == "LeadingSubcommandMatcher" then
      Some(Spec("leading-subcommand.v1",
                ["executables", "subcommands", "options_with_values", "forbidden_flags", "required_flags_anywhere",
                 "interleaved_options_with_values", "forbidden_flags_before_delimiter"],
                ["executables", "subcommands"]))
    else if name == "LeadingOperandCountMatcher" then
      Some(Spec("leading-operand-count.v1",
                ["executables", "minimum_operands", "options_with_values", "forbidden_flags"],
                ["executables", "minimum_operands"]))
    else if name == "SubcommandOperandPrefixMatcher" then
      Some(Spec("subcommand-operand-prefix.v1",
                ["executables", "subcommands", "operand_prefixes", "leading_options_with_values",
                 "options_with_values", "leading_operands_to_skip", "options_supplying_leading_operands"],
                ["executables", "subcommands", "operand_prefixes"]))
    else if name == "OptionValueKeyMatcher" then
      Some(Spec("option-value-key.v1",
                ["executables", "option_names", "value_keys", "forbidden_flags", "ignored_values",
                 "required_key_values", "cluster_options_with_values"],
                ["executables", "option_names", "value_keys"]))
    else if name == "EnvironmentNameMatcher" then
      Some(Spec("environment-name.v1", ["executables", "environment_names"], ["executables", "environment_names"]))
    else if name == "OperandGatedFlagMatcher" then
      Some(Spec("operand-gated-flags.v1",
                ["executables", "required_flags", "options_with_values", "forbidden_flags", "minimum_operands",
                 "excluded_first_arguments"],
                ["executables", "required_flags"]))
    else if name == "TrailingOperandPrefixMatcher" then
      Some(Spec("trailing-operand-prefix.v1", TRAILING + ["operand_prefixes"], ["executables", "operand_prefixes"]))
    else if name == "TrailingOperandHostTargetMatcher" then
      Some(Spec("trailing-operand-host-target.v1", TRAILING, ["executables"]))
    else if name == "TrailingOperandRemoteAliasMatcher" then
      Some(Spec("trailing-operand-remote-alias.v1", TRAILING + ["allow_bare_names", "bare_names_only"],
        ["executables"]))
    else if name == "_ZeroOperandFlagMatcher" then
      Some(Spec("zero-operand-flags.v1",
                ["executables", "required_flags", "options_with_values"],
                ["executables", "required_flags", "options_with_values"]))
    else if name == "PhpArtisanScriptMatcher" then
      Some(Spec("php-artisan-script.v1", ["subcommands", "required_flags"], ["subcommands"]))
    else if name == "CurlElasticsearchDeleteMatcher" then
      Some(Spec("curl-elasticsearch-delete.v1", ["executables", "service_ports"], []))
    else if name == "Repo2nbUnresolvedExpansionMatcher" then
      Some(Spec("repo2nb-expansion.v1",
                ["subcommand", "launchers", "leading_options_with_values", "expansion_markers"], []))
    else if name == "TuiRunnerUnresolvedExpansionMatcher" then
      Some(Spec("tui-runner-expansion.v1", ["launchers", "leading_options_with_values", "expansion_markers"], []))
    else if name == "ReviewedLiteralCommandMatcher" then
      Some(Spec("reviewed-literal.v1", ["executable", "arguments"], ["executable", "arguments"]))
    else None
  }

  const TRAILING := ["executables", "options_with_values", "required_flags", "forbidden_flags", "minimum_operands",
                     "excluded_first_arguments"]

  predicate IsLiteralCall(kind: CallKind) {
    kind.TupleCall? || kind.ListCall? || kind.SetCall?
  }

  function Literal(kind: CallKind, items: seq<Value>): Result<Value>
    requires IsLiteralCall(kind)
  {
    match kind
    case TupleCall => Ok(Tuple(items))
    case ListCall => Ok(List(items))
    case SetCall => ScalarSet(items)
  }

  function ApplyLiteral(kind: CallKind, positional: seq<Value>, keywords: Fields): Result<Value>
    requires IsLiteralCall(kind)
  {
    if |positional| > 1 || keywords != [] then Reject
    else if positional == [] then Literal(kind, [])
    else match AsSequence(positional[0])
      case Ok(items) => Literal(kind, items)
      case failed => Fail(failed)
  }

  function ApplySorted(positional: seq<Value>, keywords: Fields): Result<Value> {
    if |positional| != 1 || keywords != [] then Reject
    else match AsSequence(positional[0])
      case Ok(items) =>
        if exists i :: 0 <= i < |items| && !items[i].Str? && !IsNumber(items[i]) then Reject
        else if AllStrings(items) || AllNumbers(items) then Ok(List(Sorted(items))) else Crash
      case failed => Fail(failed)
  }

  function ExecutableNames(executable: string): seq<Value> {
    [Str(executable), Str(executable + ".cmd"), Str(executable + ".exe")]
  }

  // ---- Executable matchers --------------------------------------------------------------------------------

  /** A keyword that may be missing or null. */
  function Given(keywords: Fields, name: string): Value {
    match Named(keywords, name) case Some(v) => v case None => Null
  }

  predicate OnlyNamed(keywords: Fields, names: set<string>) {
    forall i :: 0 <= i < |keywords| ==> keywords[i].0 in names
  }

  /** Which argument each setting of a matcher is read from. */
  const SETTINGS := [
    ("required_flags", "required_flags"), ("forbidden_flags", "forbidden_flags"),
    ("allow_leading_options", "allow_leading_options"),
    ("leading_options_with_values", "leading_options_with_values"),
    ("global_options_with_values", "interspersed_options_with_values"),
    ("interspersed_options_with_values", "interspersed_options_with_values"),
    ("global_flags", "interspersed_flags"), ("interspersed_flags", "interspersed_flags"),
    ("options_with_values", "options_with_values"), ("inverse_flag_pairs", "inverse_flag_pairs"),
    ("required_option_values", "required_option_values"),
    ("required_flags_in_all_arguments", "required_flags_in_all_arguments"),
    ("fail_secure_unknown_options", "fail_secure_unknown_options")]

  const PATH_SETTINGS := [
    ("global_options_with_values", "interspersed_options_with_values"), ("global_flags", "interspersed_flags"),
    ("fail_secure_unknown_options", "fail_secure_unknown_options")]

  /** A setting without effect is not stored. */
  predicate Skipped(v: Value) {
    Among(v, [Null, Tuple([]), FrozenSet([]), Bool(false)])
  }

  /** A stored setting; an executable matcher sorts its sets by their members, a path set by their text. What
      the source renders twice is rendered once here, which `JsonTwice` justifies. */
  function Setting(v: Value, sorts: bool, lib: Library): Value {
    if sorts && v.FrozenSet? then Json(List(Ordered(v.items, lib)), lib) else Json(v, lib)
  }

  predicate SettingRaises(v: Value, sorts: bool, lib: Library) {
    if sorts && v.FrozenSet? then
      !Orderable(v.items, lib) || exists i :: 0 <= i < |v.items| && JsonRaises(v.items[i], lib)
    else JsonRaises(v, lib)
  }

  predicate SettingsRaise(fields: Fields, mapping: seq<(string, string)>, sorts: bool, lib: Library) {
    exists i :: 0 <= i < |mapping| && !Skipped(Given(fields, mapping[i].0))
      && SettingRaises(Given(fields, mapping[i].0), sorts, lib)
  }

  function Configured(
    config: seq<(Value, Value)>, fields: Fields, mapping: seq<(string, string)>, sorts: bool,
    lib: Library): seq<(Value, Value)>
  {
    if mapping == [] then config
    else
      var before, (source, target) :=
        Configured(config, fields, mapping[..|mapping| - 1], sorts, lib), mapping[|mapping| - 1];
      var v := Given(fields, source);
      if Skipped(v) then before else Put(before, target, Setting(v, sorts, lib))
  }

  function BaseConfig(names: seq<Value>, subcommands: seq<Value>): seq<(Value, Value)> {
    [(Str("executables"), List(Sorted(Distinct(names)))), (Str("subcommands"), List(subcommands))]
  }

  predicate ProperNames(names: seq<Value>) {
    names != [] && Str("") !in names
  }

  /** `executable_config`. */
  function ExecutableConfig(names: seq<Value>, subcommands: seq<Value>, fields: Fields, lib: Library): Result<Value> {
    if !ProperNames(names) then Reject
    else if SettingsRaise(fields, SETTINGS, true, lib) then Crash
    else
      Ok(Matcher("executable.v1", Dict(Configured(BaseConfig(names, subcommands), fields, SETTINGS, true, lib)), [],
        None, None))
  }

  const EXECUTABLE_FIELDS := {
    "required_flags", "forbidden_flags", "global_options_with_values", "global_flags", "allow_leading_options",
    "leading_options_with_values", "options_with_values", "fail_secure_unknown_options"}

  function ApplyExecutable(positional: seq<Value>, keywords: Fields, lib: Library): Result<Value> {
    if positional == [] || !AllStrings(positional) || !OnlyNamed(keywords, EXECUTABLE_FIELDS) then Reject
    else ExecutableConfig(ExecutableNames(positional[0].s), positional[1..], keywords, lib)
  }

  /** A sequence of texts. */
  predicate Strings(v: Value) {
    IsSequence(v) && AllStrings(v.items)
  }

  const CONSTRUCTOR_FIELDS := {
    "executables", "subcommands", "required_flags", "forbidden_flags", "allow_leading_options",
    "leading_options_with_values", "interspersed_options_with_values", "interspersed_flags", "options_with_values",
    "inverse_flag_pairs", "required_option_values", "required_flags_in_all_arguments", "fail_secure_unknown_options"}

  function Subcommands(fields: Fields): Value {
    match Named(fields, "subcommands") case Some(v) => v case None => Tuple([])
  }

  /** `executable_matcher_constructor`: subcommands that are no texts raise, executables that are none do not. */
  function ApplyExecutableConstructor(positional: seq<Value>, keywords: Fields, lib: Library): Result<Value> {
    match ConstructorFields(positional, keywords, ["executables"])
    case Ok(fields) =>
      var executables, subcommands := Given(fields, "executables"), Subcommands(fields);
      if !Strings(executables) then Reject
      else if !Strings(subcommands) then Crash
      else if !OnlyNamed(fields, CONSTRUCTOR_FIELDS) then Reject
      else ExecutableConfig(executables.items, subcommands.items, fields, lib)
    case failed => Fail(failed)
  }

  /** `argument_matcher`. */
  function ApplyArgument(positional: seq<Value>, keywords: Fields): Result<Value> {
    match ConstructorFields(positional, keywords, ["executables", "required_arguments"])
    case Ok(fields) =>
      var executables, required := Given(fields, "executables"), Given(fields, "required_arguments");
      if !Strings(executables) || !Strings(required) || executables.items == [] || required.items == [] then Reject
      else
        Ok(Matcher("arguments.v1",
                   Dict([(Str("executables"), List(Sorted(Distinct(executables.items)))),
                         (Str("required_arguments"), List(Sorted(Distinct(required.items))))]), [], None, None))
    case failed => Fail(failed)
  }

  const PATH_FIELDS := {
    "executable", "paths", "global_options_with_values", "global_flags", "fail_secure_unknown_options"}

  predicate PathFieldsAllowed(fields: Fields) {
    && OnlyNamed(fields, PATH_FIELDS)
    && Given(fields, "executable").Str? && Given(fields, "executable").s != "" && Named(fields, "paths").Some?
  }

  /** `executable_path_set_helper`. */
  function ApplyPathSet(positional: seq<Value>, keywords: Fields, lib: Library): Result<Value> {
    match ConstructorFields(positional, keywords, ["executable", "paths"])
    case Ok(fields) =>
      if !PathFieldsAllowed(fields) then Reject
      else if JsonRaises(Given(fields, "paths"), lib) || SettingsRaise(fields, PATH_SETTINGS, false, lib) then Crash
      else
        var base := [(Str("executables"), List(ExecutableNames(Given(fields, "executable").s))),
                     (Str("paths"), Json(Given(fields, "paths"), lib))];
        Ok(Matcher("executable-path-set.v1", Dict(Configured(base, fields, PATH_SETTINGS, false, lib)), [], None, None))
    case failed => Fail(failed)
  }

  predicate SpecFieldsAllowed(spec: Spec, fields: Fields) {
    && (forall i :: 0 <= i < |fields| ==> fields[i].0 in spec.names)
    && forall i :: 0 <= i < |spec.required| ==> Named(fields, spec.required[i]).Some?
  }

  predicate FieldsRaise(fields: Fields, lib: Library) {
    exists i :: 0 <= i < |fields| && JsonRaises(fields[i].1, lib)
  }

  /** `native_matcher_constructor`. */
  function ApplyNative(spec: Spec, positional: seq<Value>, keywords: Fields, lib: Library): Result<Value> {
    match ConstructorFields(positional, keywords, spec.names)
    case Ok(fields) =>
      if !SpecFieldsAllowed(spec, fields) then Reject
      else if FieldsRaise(fields, lib) then Crash
      else Ok(Matcher(spec.op, Json(Dict(FieldPairs(fields)), lib), [], None, None))
    case failed => Fail(failed)
  }

  // ---- Groups and records ---------------------------------------------------------------------------------

  predicate AllMatchers(items: seq<Value>) {
    forall i :: 0 <= i < |items| ==> items[i].Matcher?
  }

  function ApplyGroup(op: string, positional: seq<Value>, keywords: Fields): Result<Value> {
    var named := Named(keywords, "matchers");
    if positional != [] && named.Some? then Reject
    else
      var children := if named.Some? then named.value else if positional != [] then positional[0] else Null;
      if children.Null? then Reject
      else match AsSequence(children)
        case Ok(items) =>
          if !AllMatchers(items) then Crash
          else if items == [] then Reject else Ok(Matcher(op, Dict([]), items, None, None))
        case failed => Fail(failed)
  }

  function ApplyPipeline(positional: seq<Value>, keywords: Fields): Result<Value> {
    var producer, consumer := Named(keywords, "producer"), Named(keywords, "consumer");
    if positional != [] || |keywords| != 2 || producer.None? || consumer.None? then Reject
    else if !producer.value.Matcher? || !consumer.value.Matcher? then Crash
    else Ok(Matcher("pipeline.v1", Dict([]), [], producer, consumer))
  }

  function FieldPairs(fields: Fields): (r: seq<(Value, Value)>)
    ensures |r| == |fields| && forall i :: 0 <= i < |fields| ==> r[i] == (Str(fields[i].0), fields[i].1)
  {
    seq(|fields|, i requires 0 <= i < |fields| => (Str(fields[i].0), fields[i].1))
  }

  /** `constructor_fields`. */
  function ConstructorFields(positional: seq<Value>, keywords: Fields, names: seq<string>): Result<Fields> {
    if |positional| > |names| then Reject
    else if exists i :: 0 <= i < |positional| && Named(keywords, names[i]).Some? then Reject
    else Ok(seq(|positional|, i requires 0 <= i < |positional| => (names[i], positional[i])) + keywords)
  }

  function ApplyConstructor(kind: string, names: seq<string>, positional: seq<Value>, keywords: Fields): Result<Value> {
    match ConstructorFields(positional, keywords, names)
    case Ok(fields) => Ok(Constructed(kind, Dict(FieldPairs(fields))))
    case failed => Fail(failed)
  }

  // ---- Safe variants: an `any` matcher whose executable children get one more flag or option ----------

  const FLAGS := "required_flags"
  const FLAGS_ANYWHERE := "required_flags_in_all_arguments"
  const PAIRS := "inverse_flag_pairs"
  const OPTIONS := "options_with_values"
  const OPTION_VALUES := "required_option_values"

  function GetOr(pairs: seq<(Value, Value)>, key: string): Value {
    match Get(pairs, key) case Some(v) => v case None => List([])
  }

  /** The set a child has under `key`, with one string added, before it is sorted. */
  function WithMember(config: seq<(Value, Value)>, key: string, member: string): Result<seq<Value>> {
    match SetOf(GetOr(config, key))
    case Ok(items) => Ok(Adding(items, Str(member)))
    case failed => Fail(failed)
  }

  /** `sorted` of a set that holds a string: it raises unless all members are strings. */
  function SortedStrings(items: seq<Value>): Result<Value> {
    if AllStrings(items) then Ok(List(Sorted(items))) else Crash
  }

  /** `[tuple(item) for item in v]`. */
  function Tuples(items: seq<Value>): Result<seq<Value>> {
    if items == [] then Ok([])
    else match Tuples(items[..|items| - 1])
      case Ok(before) =>
        (match Iterate(items[|items| - 1]) case Ok(inner) => Ok(before + [Tuple(inner)]) case _ => Crash)
      case failed => Fail(failed)
  }

  function TuplesOf(v: Value): Result<seq<Value>> {
    match Iterate(v) case Ok(items) => Tuples(items) case _ => Crash
  }

  /** The inverse pairs of a child with one added, before they are sorted. */
  function WithPair(config: seq<(Value, Value)>, flag: string, inverse: string): Result<seq<Value>> {
    match TuplesOf(GetOr(config, PAIRS))
    case Ok(pairs) =>
      var all := pairs + [Tuple([Str(flag), Str(inverse)])];
      if forall i :: 0 <= i < |all| ==> Hashable(all[i]) then Ok(Distinct(all)) else Crash
    case failed => Fail(failed)
  }

  /** The option values of a child with one added, before they are sorted. */
  function WithValues(config: seq<(Value, Value)>, option: string, allowed: seq<Value>): Result<seq<Value>> {
    match TuplesOf(GetOr(config, OPTION_VALUES))
    case Ok(values) => Ok(values + [Tuple([Str(option), List(allowed)])])
    case failed => Fail(failed)
  }

  function InOrder(items: seq<Value>, lib: Library): Result<Value> {
    if Orderable(items, lib) then Ok(List(Ordered(items, lib))) else Crash
  }

  /** The configuration `clone_required_flag` gives a child. */
  function FlagConfig(config: seq<(Value, Value)>, flag: string, inverse: Option<string>,
      lib: Library): Result<seq<(Value, Value)>> {
    match WithMember(config, FLAGS, flag)
    case Ok(members) =>
      (match SortedStrings(members)
       case Ok(flags) =>
         var flagged := Put(Put(config, FLAGS, flags), FLAGS_ANYWHERE, Bool(true));
         if inverse.None? then Ok(flagged) else PutOrdered(flagged, PAIRS, WithPair(config, flag, inverse.value), lib)
       case failed => Fail(failed))
    case failed => Fail(failed)
  }

  /** The configuration `clone_option` gives a child. */
  function OptionConfig(config: seq<(Value, Value)>, option: string, allowed: seq<Value>,
      lib: Library): Result<seq<(Value, Value)>> {
    match WithMember(config, OPTIONS, option)
    case Ok(members) =>
      (match SortedStrings(members)
       case Ok(options) =>
         PutOrdered(Put(config, OPTIONS, options), OPTION_VALUES, WithValues(config, option, allowed), lib)
       case failed => Fail(failed))
    case failed => Fail(failed)
  }

  /** Storing a list in order. It was read before the keys stored so far, which are other keys. */
  function PutOrdered(config: seq<(Value, Value)>, key: string, items: Result<seq<Value>>,
      lib: Library): Result<seq<(Value, Value)>> {
    match items
    case Ok(list) => (match InOrder(list, lib) case Ok(v) => Ok(Put(config, key, v)) case failed => Fail(failed))
    case failed => Fail(failed)
  }

  /** What is added to every child. */
  datatype Change = AddFlag(flag: string, inverse: Option<string>) | AddOption(option: string, allowed: seq<Value>)

  function Changed(config: seq<(Value, Value)>, change: Change, lib: Library): Result<seq<(Value, Value)>> {
    match change
    case AddFlag(flag, inverse) => FlagConfig(config, flag, inverse, lib)
    case AddOption(option, allowed) => OptionConfig(config, option, allowed, lib)
  }

  function CloneChild(child: Value, change: Change, lib: Library): Result<Value>
    requires child.Matcher?
  {
    if !child.config.Dict? then Crash
    else match Changed(child.config.pairs, change, lib)
      case Ok(config) => Ok(child.(config := Dict(config)))
      case failed => Fail(failed)
  }

  function CloneChildren(children: seq<Value>, change: Change, lib: Library): Result<seq<Value>>
    requires AllMatchers(children)
  {
    if children == [] then Ok([])
    else match CloneChildren(children[..|children| - 1], change, lib)
      case Ok(before) =>
        (match CloneChild(children[|children| - 1], change, lib)
         case Ok(c) => Ok(before + [c])
         case failed => Fail(failed))
      case failed => Fail(failed)
  }

  /** `clone_required_flag` and `clone_option`. */
  predicate Clonable(matcher: Value) {
    && matcher.Matcher? && matcher.op == "any.v1" && AllMatchers(matcher.matchers)
    && forall i :: 0 <= i < |matcher.matchers| ==> matcher.matchers[i].op in {"executable.v1", "executable-path-set.v1"}
  }

  function Clone(matcher: Value, change: Change, lib: Library): Result<Value> {
    if !Clonable(matcher) then Reject
    else match CloneChildren(matcher.matchers, change, lib)
      case Ok(children) => Ok(Matcher("any.v1", Dict([]), children, None, None))
      case failed => Fail(failed)
  }

  function Inverse(v: Value): Option<string>
    requires v.Null? || v.Str?
  {
    if v.Null? then None else Some(v.s)
  }

  /** The matcher and the change that `with_required_flag` asks for; `None` when it rejects. */
  function FlagRequest(positional: seq<Value>, keywords: Fields): Option<(Value, Change)> {
    var inverse := Given(keywords, "inverse_flag");
    var flag := if |positional| > 1 then positional[1] else Given(keywords, "flag");
    if positional == [] || !positional[0].Matcher? || !flag.Str? || !(inverse.Null? || inverse.Str?) then None
    else Some((positional[0], AddFlag(flag.s, Inverse(inverse))))
  }

  function ApplyFlag(positional: seq<Value>, keywords: Fields, lib: Library): Result<Value> {
    match FlagRequest(positional, keywords)
    case None => Reject
    case Some((matcher, change)) => Clone(matcher, change, lib)
  }

  /** The matcher argument of a variant helper and the keywords it leaves over. */
  function VariantMatcher(positional: seq<Value>, keywords: Fields): Value {
    if positional != [] then positional[0] else Given(keywords, "matcher")
  }

  predicate LeftOver(positional: seq<Value>, keywords: Fields, names: set<string>) {
    !OnlyNamed(keywords, if positional == [] then names + {"matcher"} else names)
  }

  function FlagVariantRequest(positional: seq<Value>, keywords: Fields): Option<(Value, Change)> {
    var matcher, flag, inverse :=
      VariantMatcher(positional, keywords), Given(keywords, "flag"), Given(keywords, "inverse_flag");
    if || |positional| > 1 || LeftOver(positional, keywords, {"flag", "variant_id", "title", "inverse_flag"})
       || !matcher.Matcher? || !flag.Str? || !(inverse.Null? || inverse.Str?)
       || !Given(keywords, "variant_id").Str? || !Given(keywords, "title").Str?
    then None
    else Some((matcher, AddFlag(flag.s, Inverse(inverse))))
  }

  function Variant(keywords: Fields, matcher: Result<Value>): Result<Value> {
    match matcher
    case Ok(m) =>
      Ok(Constructed("safe_variant", Dict([(Str("variant_id"), Given(keywords, "variant_id")),
                                           (Str("title"), Given(keywords, "title")), (Str("matcher"), m)])))
    case failed => failed
  }

  function ApplyFlagVariant(positional: seq<Value>, keywords: Fields, lib: Library): Result<Value> {
    match FlagVariantRequest(positional, keywords)
    case None => Reject
    case Some((matcher, change)) => Variant(keywords, Clone(matcher, change, lib))
  }

  /** The request of `safe_option_variant`, with the allowed values still to be read. */
  function OptionVariantRequest(positional: seq<Value>, keywords: Fields): Option<(Value, string)> {
    var matcher, option := VariantMatcher(positional, keywords), Given(keywords, "option");
    if || LeftOver(positional, keywords, {"variant_id", "title", "option", "allowed_values"}) || !matcher.Matcher?
       || !option.Str? || !Given(keywords, "variant_id").Str? || !Given(keywords, "title").Str?
    then None
    else Some((matcher, option.s))
  }

  function ApplyOptionVariant(positional: seq<Value>, keywords: Fields, lib: Library): Result<Value> {
    match OptionVariantRequest(positional, keywords)
    case None => Reject
    case Some((matcher, option)) =>
      match AsSequence(Given(keywords, "allowed_values"))
      case Ok(allowed) =>
        if AllStrings(allowed) then Variant(keywords, Clone(matcher, AddOption(option, allowed), lib)) else Crash
      case failed => Fail(failed)
  }

  /** A call, once its arguments are values. */
  function Apply(name: string, positional: seq<Value>, keywords: Fields, lib: Library): Result<Value> {
    match KindOfCall(name)
    case TupleCall => ApplyLiteral(TupleCall, positional, keywords)
    case ListCall => ApplyLiteral(ListCall, positional, keywords)
    case SetCall => ApplyLiteral(SetCall, positional, keywords)
    case SortedCall => ApplySorted(positional, keywords)
    case NamesCall =>
      if |positional| != 1 || keywords != [] || !positional[0].Str? then Reject
      else Ok(FrozenSet(ExecutableNames(positional[0].s)))
    case ExecutableCall => ApplyExecutable(positional, keywords, lib)
    case GroupCall(op) => ApplyGroup(op, positional, keywords)
    case PipelineCall => ApplyPipeline(positional, keywords)
    case ConstructorCall(kind, names) => ApplyConstructor(kind, names, positional, keywords)
    case FlagCall => ApplyFlag(positional, keywords, lib)
    case FlagVariantCall => ApplyFlagVariant(positional, keywords, lib)
    case OptionVariantCall => ApplyOptionVariant(positional, keywords, lib)
    case ExecutableConstructorCall => ApplyExecutableConstructor(positional, keywords, lib)
    case ArgumentCall => ApplyArgument(positional, keywords)
    case PathSetCall => ApplyPathSet(positional, keywords, lib)
    case NativeCall(spec) => ApplyNative(spec, positional, keywords, lib)
    case OtherCall => Reject
  }
}
