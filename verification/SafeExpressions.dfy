/** Expressions that never end in a Python error, whatever their names are bound to. */
module SafeExpressions {
  import opened Options
  import opened StaticValues
  import opened PythonValues
  import opened Expressions
  import opened Calls
  import opened Guards
  import opened CallCrashes
  import opened Crashes

  /** Names whose calls never raise, whatever their arguments. */
  ghost predicate NeverRaise(names: set<string>, lib: CallTable) {
    forall name, positional, keywords :: name in names ==> !lib.apply(name, positional, keywords).Crash?
  }

  predicate SafeGenerator(g: Generator, names: set<string>) {
    !g.target.Shape? && Safe(g.iter, names)
  }

  /** No membership test, star, set comprehension or shaped target, no text that UTF-8 cannot encode, and no
      call of other names. */
  predicate Safe(e: Expr, names: set<string>) {
    match e
    case SurrogateText => false
    case FString(parts) => SurrogatePiece !in parts
    case Display(_, elts) => forall i :: 0 <= i < |elts| ==> !elts[i].Starred? && Safe(elts[i], names)
    case DictDisplay(entries) =>
      forall i :: 0 <= i < |entries| ==>
        (entries[i].key.Some? ==> Safe(entries[i].key.value, names)) && Safe(entries[i].value, names)
    case Starred(inner) => Safe(inner, names)
    case Comp(comp, key, elt, gens) =>
      !comp.SetComp? && (comp.DictComp? ==> Safe(key, names)) && Safe(elt, names) && forall i :: 0 <= i < |gens| ==>
        SafeGenerator(gens[i], names)
    case Call(func, args, keywords) =>
      func.Some? ==>
        && func.value in names
        && (forall i :: 0 <= i < |args| ==> !args[i].Starred? && Safe(args[i], names))
        && forall i :: 0 <= i < |keywords| ==> Safe(keywords[i].value, names)
    case Subscript(container, index) => Safe(container, names) && Safe(index, names)
    case Compare(left, links) =>
      Safe(left, names) && forall i :: 0 <= i < |links| ==>
        !links[i].op.In? && !links[i].op.NotIn? && Safe(links[i].right, names)
    case IfExp(test, body, orelse) => Safe(test, names) && Safe(body, names) && Safe(orelse, names)
    case Add(left, right) => Safe(left, names) && Safe(right, names)
    case BitOr(left, right) => Safe(left, names) && Safe(right, names)
    case Attribute(object_, _) => Safe(object_, names)
    case _ => true
  }

  /** Main result: such an expression denotes a value or is rejected; it never raises. */
  lemma {:induction false} SafeNeverCrashes(names: set<string>, e: Expr, env: Env, lib: CallTable)
    requires NeverRaise(names, lib)
    requires Safe(e, names)
    ensures !Den(e, env, lib).Crash?
    decreases e, 5, 0
  {
    BodyNeverCrashes(names, e, env, lib);
  }

  lemma {:induction false} BodyNeverCrashes(names: set<string>, e: Expr, env: Env, lib: CallTable)
    requires NeverRaise(names, lib)
    requires Safe(e, names)
    ensures !MeterBody(e, env, lib).result.Crash?
    decreases e, 4, 0
  {
    hide Meter, MeterElements, MeterEntries, MeterLinks, MeterComp, MeterCall;
    match e
    case Display(display, elts) => ElementsNeverCrash(names, e, elts, false, [], env, lib);
    case DictDisplay(entries) => EntriesNeverCrash(names, e, entries, [], env, lib);
    case Starred(inner) => SafeNeverCrashes(names, inner, env, lib);
    case Comp(_, _, _, _) => CompNeverCrashes(names, e, env, lib);
    case Call(func, args, keywords) =>
      if func.Some? {
        CallNeverCrashes(names, e, env, lib);
      }
    case Subscript(container, index) =>
      SafeNeverCrashes(names, container, env, lib);
      SafeNeverCrashes(names, index, env, lib);
      if Den(container, env, lib).Ok? && Den(index, env, lib).Ok? {
        ItemNeverCrashes(Den(container, env, lib).value, Den(index, env, lib).value);
      }
    case Compare(left, links) =>
      SafeNeverCrashes(names, left, env, lib);
      if Den(left, env, lib).Ok? {
        LinksNeverCrash(names, e, Chain(Den(left, env, lib).value, true), links, env, lib);
      }
    case IfExp(test, body, orelse) =>
      SafeNeverCrashes(names, test, env, lib);
      SafeNeverCrashes(names, body, env, lib);
      SafeNeverCrashes(names, orelse, env, lib);
    case Add(left, right) =>
      SafeNeverCrashes(names, left, env, lib);
      SafeNeverCrashes(names, right, env, lib);
    case BitOr(left, right) =>
      SafeNeverCrashes(names, left, env, lib);
      SafeNeverCrashes(names, right, env, lib);
    case Attribute(object_, _) => SafeNeverCrashes(names, object_, env, lib);
    case FString(parts) => TextNeverCrashes(parts);
    case _ =>
  }

  lemma {:induction false} CallNeverCrashes(names: set<string>, e: Expr, env: Env, lib: CallTable)
    requires NeverRaise(names, lib)
    requires e.Call? && e.func.Some? && Safe(e, names)
    ensures !MeterCall(e, env, lib).result.Crash?
    decreases e, 3, 0
  {
    ElementsNeverCrash(names, e, e.args, true, [], env, lib);
    KeywordsNeverCrash(names, e, e.keywords, [], env, lib);
    var p, k := MeterElements(e, e.args, true, [], env, lib), MeterKeywords(e, e.keywords, [], env, lib);
    if p.result.Ok? && k.result.Ok? {
      assert e.func.value in names && !lib.apply(e.func.value, p.result.value, k.result.value).Crash?;
    }
  }

  lemma {:induction false} TextNeverCrashes(parts: seq<Piece>)
    requires SurrogatePiece !in parts
    ensures !Text(parts).Crash?
  {
    TextCrashes(parts);
  }

  lemma {:induction false} ElementsNeverCrash(names: set<string>, parent: Expr, elts: seq<Expr>, wrapped: bool,
      before: seq<Value>, env: Env, lib: CallTable)
    requires NeverRaise(names, lib)
    requires forall i :: 0 <= i < |elts| ==> elts[i] < parent && !elts[i].Starred? && Safe(elts[i], names)
    ensures !MeterElements(parent, elts, wrapped, before, env, lib).result.Crash?
    decreases parent, 1, |elts|
  {
    if elts != [] {
      SafeNeverCrashes(names, elts[0], env, lib);
      var next := MeterElement(elts[0], wrapped, before, env, lib);
      if next.result.Ok? {
        ElementsNeverCrash(names, parent, elts[1..], wrapped, next.result.value, env, lib);
      }
    }
  }

  lemma {:induction false} EntriesNeverCrash(
    names: set<string>, parent: Expr, entries: seq<Entry>, before: seq<(Value, Value)>, env: Env, lib: CallTable)
    requires NeverRaise(names, lib)
    requires forall i :: 0 <= i < |entries| ==>
               entries[i] < parent && (entries[i].key.Some? ==> Safe(entries[i].key.value, names))
                 && Safe(entries[i].value, names)
    ensures !MeterEntries(parent, entries, before, env, lib).result.Crash?
    decreases parent, 1, |entries|
  {
    if entries != [] {
      if entries[0].key.Some? {
        SafeNeverCrashes(names, entries[0].key.value, env, lib);
      }
      SafeNeverCrashes(names, entries[0].value, env, lib);
      var next := MeterEntry(entries[0], before, env, lib);
      if next.result.Ok? {
        EntriesNeverCrash(names, parent, entries[1..], next.result.value, env, lib);
      }
    }
  }

  lemma {:induction false} KeywordsNeverCrash(names: set<string>, parent: Expr, keywords: seq<Keyword>, before: Fields,
      env: Env, lib: CallTable)
    requires NeverRaise(names, lib)
    requires forall i :: 0 <= i < |keywords| ==> keywords[i] < parent && Safe(keywords[i].value, names)
    ensures !MeterKeywords(parent, keywords, before, env, lib).result.Crash?
    decreases parent, 1, |keywords|
  {
    if keywords != [] {
      SafeNeverCrashes(names, keywords[0].value, env, lib);
      var next := MeterKeyword(keywords[0], before, env, lib);
      if next.result.Ok? {
        KeywordsNeverCrash(names, parent, keywords[1..], next.result.value, env, lib);
      }
    }
  }

  lemma {:induction false} LinksNeverCrash(names: set<string>, parent: Expr, chain: Chain, links: seq<Link>, env: Env,
      lib: CallTable)
    requires NeverRaise(names, lib)
    requires forall i :: 0 <= i < |links| ==>
             links[i] < parent && !links[i].op.In? && !links[i].op.NotIn? && Safe(links[i].right, names)
    ensures !MeterLinks(parent, chain, links, env, lib).result.Crash?
    decreases parent, 1, |links|
  {
    if links != [] {
      SafeNeverCrashes(names, links[0].right, env, lib);
      var next := MeterLink(chain, links[0], env, lib);
      if next.result.Ok? {
        LinksNeverCrash(names, parent, next.result.value, links[1..], env, lib);
      }
    }
  }

  lemma {:induction false} CompNeverCrashes(names: set<string>, e: Expr, env: Env, lib: CallTable)
    requires NeverRaise(names, lib)
    requires e.Comp? && Safe(e, names)
    ensures !MeterComp(e, env, lib).result.Crash?
    decreases e, 3, 0
  {
    RowsNeverCrash(names, e, e.gens, 0, env, [], lib);
    var rows := MeterRows(e, e.gens, 0, env, [], lib);
    if rows.result.Ok? {
      if e.comp.DictComp? {
        PairsNeverCrash(names, e, e.key, e.elt, rows.result.value, [], lib);
      } else {
        OverNeverCrashes(names, e, e.elt, rows.result.value, [], lib);
      }
    }
  }

  lemma {:induction false} RowsNeverCrash(names: set<string>, parent: Expr, gens: seq<Generator>, index: nat, env: Env,
      rows: seq<Env>, lib: CallTable)
    requires NeverRaise(names, lib)
    requires index <= |gens| && forall i :: 0 <= i < |gens| ==> gens[i] < parent && SafeGenerator(gens[i], names)
    ensures !MeterRows(parent, gens, index, env, rows, lib).result.Crash?
    decreases parent, 1, |gens| - index, 1
  {
    if index < |gens| {
      SafeNeverCrashes(names, gens[index].iter, env, lib);
      assert MeterRows(parent, gens, index, env, rows, lib)
             == Charge(Rows(|rows|), MeterGenerator(parent, gens, index, env, rows, lib));
      var iterable := Meter(gens[index].iter, env, lib);
      if iterable.result.Ok? && Iterate(iterable.result.value).Ok? {
        RowsOfNeverCrash(names, parent, gens, index, Iterate(iterable.result.value).value, env, rows, lib);
      }
    }
  }

  lemma {:induction false} RowsOfNeverCrash(
    names: set<string>, parent: Expr, gens: seq<Generator>, index: nat, values: seq<Value>, env: Env, rows: seq<Env>,
    lib: CallTable)
    requires NeverRaise(names, lib)
    requires index < |gens| && forall i :: 0 <= i < |gens| ==> gens[i] < parent && SafeGenerator(gens[i], names)
    ensures !MeterRowsOf(parent, gens, index, values, env, rows, lib).result.Crash?
    decreases parent, 1, |gens| - index - 1, |values| + 3
  {
    if values != [] {
      var bound := BindTarget(gens[index].target, values[0], env);
      assert SafeGenerator(gens[index], names);
      if bound.Ok? {
        RowsNeverCrash(names, parent, gens, index + 1, bound.value, rows, lib);
        var next := MeterRows(parent, gens, index + 1, bound.value, rows, lib);
        if next.result.Ok? {
          RowsOfNeverCrash(names, parent, gens, index, values[1..], env, next.result.value, lib);
        }
      }
    }
  }

  lemma {:induction false} OverNeverCrashes(names: set<string>, parent: Expr, elt: Expr, rows: seq<Env>,
      before: seq<Value>, lib: CallTable)
    requires NeverRaise(names, lib)
    requires elt < parent && Safe(elt, names)
    ensures !MeterOver(parent, elt, rows, before, lib).result.Crash?
    decreases parent, 1, |rows|
  {
    if rows != [] {
      SafeNeverCrashes(names, elt, rows[0], lib);
      var next := MeterOne(elt, rows[0], before, lib);
      if next.result.Ok? {
        OverNeverCrashes(names, parent, elt, rows[1..], next.result.value, lib);
      }
    }
  }

  lemma {:induction false} PairsNeverCrash(names: set<string>, parent: Expr, key: Expr, value: Expr, rows: seq<Env>,
      before: seq<Value>, lib: CallTable)
    requires NeverRaise(names, lib)
    requires key < parent && value < parent && Safe(key, names) && Safe(value, names)
    ensures !MeterPairsOver(parent, key, value, rows, before, lib).result.Crash?
    decreases parent, 1, |rows|
  {
    if rows != [] {
      SafeNeverCrashes(names, key, rows[0], lib);
      SafeNeverCrashes(names, value, rows[0], lib);
      var next := MeterPair(parent, key, value, rows[0], before, lib);
      if next.result.Ok? {
        PairsNeverCrash(names, parent, key, value, rows[1..], next.result.value, lib);
      }
    }
  }

  const PLAIN_NAMES := {
    "executable_names", "ArgumentMatcher", "CommandSafeVariant", "CommandSafetyRule", "CommandExtensionSpec"}

  /** In the evaluator's table these calls never raise. */
  lemma {:induction false} PlainNamesNeverRaise(lib: Library)
    ensures NeverRaise(PLAIN_NAMES, Table(lib))
  {
    forall name, positional, keywords | name in PLAIN_NAMES
      ensures !Table(lib).apply(name, positional, keywords).Crash?
    {
      PlainKinds(name);
      CallCrashesIff(name, positional, keywords, lib);
    }
  }

  lemma {:induction false} PlainKinds(name: string)
    requires name in PLAIN_NAMES
    ensures KindOfCall(name).NamesCall? || KindOfCall(name).ConstructorCall? || KindOfCall(name).ArgumentCall?
  {
    hide NativeSpec;
  }
}
