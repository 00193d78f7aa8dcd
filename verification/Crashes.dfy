/** When evaluation ends in a Python error instead of a value or a rejection: exactly when an operation meets
    operands on which Python raises. */
module Crashes {
  import opened Options
  import opened StaticValues
  import opened PythonValues
  import opened Expressions

  // ---- Operations --------------------------------------------------------------------------------------------

  lemma {:induction false} LinkCrashes(op: Op, a: Value, b: Value)
    ensures CompareOne(op, a, b).Crash? <==> LinkRaises(op, a, b)
  {
  }

  lemma {:induction false} LookupNeverCrashes(key: Value, pairs: seq<(Value, Value)>)
    ensures !Lookup(key, pairs).Crash?
  {
    if pairs != [] {
      LookupNeverCrashes(key, pairs[1..]);
    }
  }

  lemma {:induction false} ItemNeverCrashes(container: Value, index: Value)
    ensures !Item(container, index).Crash?
  {
    if container.Dict? {
      LookupNeverCrashes(index, container.pairs);
    }
  }

  /** The text of an f-string has no UTF-8 form; a formatted value is refused before that is noticed. */
  lemma {:induction false} TextCrashes(parts: seq<Piece>)
    ensures Text(parts).Crash? <==> TextRaises(parts)
    ensures Text(parts).Reject? <==> FormattedPiece in parts
  {
    if parts != [] {
      var front := parts[..|parts| - 1];
      TextCrashes(front);
      assert parts == front + [parts[|parts| - 1]];
    }
  }

  lemma {:induction false} CollectCrashes(comp: CompKind, items: seq<Value>)
    ensures CompValue(comp, items).Crash? <==> CompRaises(comp, items)
  {
    if exists i :: 0 <= i < |items| && !Hashable(items[i]) {
      var i :| 0 <= i < |items| && !Hashable(items[i]);
      assert items[i] in items;
    }
  }

  lemma {:induction false} TargetCrashes(target: Target, v: Value, env: Env)
    ensures BindTarget(target, v, env).Crash? <==> TargetRaises(target, v, env)
    decreases target, 1, 0
  {
    if target.Shape? && StarTarget !in target.items && IsSequence(v) && |v.items| == |target.items| {
      TargetsCrash(target, target.items, v.items, env);
    }
  }

  lemma {:induction false} TargetsCrash(parent: Target, items: seq<Target>, values: seq<Value>, env: Env)
    requires |items| == |values| && forall i :: 0 <= i < |items| ==> items[i] < parent
    ensures BindTargets(parent, items, values, env).Crash? <==> TargetsRaise(parent, items, values, env)
    decreases parent, 0, |items|
  {
    if items != [] {
      TargetCrashes(items[0], values[0], env);
      var next := BindTarget(items[0], values[0], env);
      if next.Ok? {
        TargetsCrash(parent, items[1..], values[1..], next.value);
      }
    }
  }

  // ---- Expressions -------------------------------------------------------------------------------------------

  /** Every call raises exactly when its guard says so. */
  ghost predicate Tells(lib: CallTable) {
    forall name, positional, keywords ::
      lib.apply(name, positional, keywords).Crash? <==> lib.raises(name, positional, keywords)
  }

  /** An evaluation raised exactly if one of its operations met operands on which Python raises. */
  predicate Exact<T>(m: Metered<T>) {
    m.result.Crash? <==> m.use.raises
  }

  /** Main result: an expression ends in a Python error exactly if one of the operations that evaluating it
      comes to meets operands on which Python raises. */
  lemma {:induction false} ExprCrashes(e: Expr, env: Env, lib: CallTable)
    requires Tells(lib)
    ensures Exact(Meter(e, env, lib))
    ensures Den(e, env, lib).Crash? <==> Meter(e, env, lib).use.raises
    decreases e, 5, 0
  {
    BodyCrashes(e, env, lib);
  }

  lemma {:induction false} BodyCrashes(e: Expr, env: Env, lib: CallTable)
    requires Tells(lib)
    ensures Exact(MeterBody(e, env, lib))
    decreases e, 4, 0
  {
    hide Meter, MeterElements, MeterEntries, MeterLinks, MeterComp, MeterCall;
    match e
    case Display(display, elts) => ElementsCrash(e, elts, false, [], env, lib);
    case DictDisplay(entries) => EntriesCrash(e, entries, [], env, lib);
    case Starred(inner) => ExprCrashes(inner, env, lib);
    case Comp(_, _, _, _) => CompCrashes(e, env, lib);
    case Call(func, args, keywords) =>
      if func.Some? {
        CallCrashes(e, env, lib);
      }
    case Subscript(container, index) =>
      ExprCrashes(container, env, lib);
      ExprCrashes(index, env, lib);
      if Den(container, env, lib).Ok? && Den(index, env, lib).Ok? {
        ItemNeverCrashes(Den(container, env, lib).value, Den(index, env, lib).value);
      }
    case Compare(left, links) =>
      ExprCrashes(left, env, lib);
      if Den(left, env, lib).Ok? {
        LinksCrash(e, Chain(Den(left, env, lib).value, true), links, env, lib);
      }
    case IfExp(test, body, orelse) =>
      ExprCrashes(test, env, lib);
      ExprCrashes(body, env, lib);
      ExprCrashes(orelse, env, lib);
    case Add(left, right) =>
      ExprCrashes(left, env, lib);
      ExprCrashes(right, env, lib);
    case BitOr(left, right) =>
      ExprCrashes(left, env, lib);
      ExprCrashes(right, env, lib);
    case Attribute(object_, _) => ExprCrashes(object_, env, lib);
    case FString(parts) => TextCrashes(parts);
    case _ =>
  }

  lemma {:induction false} CallCrashes(e: Expr, env: Env, lib: CallTable)
    requires Tells(lib) && e.Call? && e.func.Some?
    ensures Exact(MeterCall(e, env, lib))
    decreases e, 3, 0
  {
    ElementsCrash(e, e.args, true, [], env, lib);
    KeywordsCrash(e, e.keywords, [], env, lib);
    var p, k := MeterElements(e, e.args, true, [], env, lib), MeterKeywords(e, e.keywords, [], env, lib);
    if p.result.Ok? && k.result.Ok? {
      assert Exact(Applied(e.func.value, p.result.value, k.result.value, lib));
    }
  }

  lemma {:induction false} ElementsCrash(
    parent: Expr, elts: seq<Expr>, wrapped: bool, before: seq<Value>, env: Env, lib: CallTable)
    requires Tells(lib) && forall i :: 0 <= i < |elts| ==> elts[i] < parent
    ensures Exact(MeterElements(parent, elts, wrapped, before, env, lib))
    decreases parent, 1, |elts|
  {
    hide Meter;
    if elts != [] {
      ExprCrashes(Picked(elts[0], wrapped), env, lib);
      var next := MeterElement(elts[0], wrapped, before, env, lib);
      if next.result.Ok? {
        ElementsCrash(parent, elts[1..], wrapped, next.result.value, env, lib);
      }
    }
  }

  lemma {:induction false} EntriesCrash(
    parent: Expr, entries: seq<Entry>, before: seq<(Value, Value)>, env: Env, lib: CallTable)
    requires Tells(lib) && forall i :: 0 <= i < |entries| ==> entries[i] < parent
    ensures Exact(MeterEntries(parent, entries, before, env, lib))
    decreases parent, 1, |entries|
  {
    hide Meter;
    if entries != [] {
      if entries[0].key.Some? {
        ExprCrashes(entries[0].key.value, env, lib);
      }
      ExprCrashes(entries[0].value, env, lib);
      var next := MeterEntry(entries[0], before, env, lib);
      if next.result.Ok? {
        EntriesCrash(parent, entries[1..], next.result.value, env, lib);
      }
    }
  }

  lemma {:induction false} KeywordsCrash(
    parent: Expr, keywords: seq<Keyword>, before: Fields, env: Env, lib: CallTable)
    requires Tells(lib) && forall i :: 0 <= i < |keywords| ==> keywords[i] < parent
    ensures Exact(MeterKeywords(parent, keywords, before, env, lib))
    decreases parent, 1, |keywords|
  {
    hide Meter;
    if keywords != [] {
      ExprCrashes(keywords[0].value, env, lib);
      var next := MeterKeyword(keywords[0], before, env, lib);
      if next.result.Ok? {
        KeywordsCrash(parent, keywords[1..], next.result.value, env, lib);
      }
    }
  }

  lemma {:induction false} LinksCrash(parent: Expr, chain: Chain, links: seq<Link>, env: Env, lib: CallTable)
    requires Tells(lib) && forall i :: 0 <= i < |links| ==> links[i] < parent
    ensures Exact(MeterLinks(parent, chain, links, env, lib))
    decreases parent, 1, |links|
  {
    hide Meter;
    if links != [] {
      ExprCrashes(links[0].right, env, lib);
      var next, right := MeterLink(chain, links[0], env, lib), Den(links[0].right, env, lib);
      if right.Ok? {
        LinkCrashes(links[0].op, chain.left, right.value);
      }
      if next.result.Ok? {
        LinksCrash(parent, next.result.value, links[1..], env, lib);
      }
    }
  }

  lemma {:induction false} CompCrashes(e: Expr, env: Env, lib: CallTable)
    requires Tells(lib) && e.Comp?
    ensures Exact(MeterComp(e, env, lib))
    decreases e, 3, 0
  {
    RowsCrash(e, e.gens, 0, env, [], lib);
    var rows := MeterRows(e, e.gens, 0, env, [], lib);
    if rows.result.Ok? {
      if e.comp.DictComp? {
        PairsCrash(e, e.key, e.elt, rows.result.value, [], lib);
        CollectExact(e.comp, MeterPairsOver(e, e.key, e.elt, rows.result.value, [], lib));
      } else {
        OverCrash(e, e.elt, rows.result.value, [], lib);
        CollectExact(e.comp, MeterOver(e, e.elt, rows.result.value, [], lib));
      }
    }
  }

  lemma {:induction false} CollectExact(comp: CompKind, m: Metered<seq<Value>>)
    requires Exact(m)
    ensures Exact(Collect(comp, m))
  {
    if m.result.Ok? {
      CollectCrashes(comp, m.result.value);
    }
  }

  lemma {:induction false} RowsCrash(
    parent: Expr, gens: seq<Generator>, index: nat, env: Env, rows: seq<Env>, lib: CallTable)
    requires Tells(lib) && index <= |gens| && forall i :: 0 <= i < |gens| ==> gens[i] < parent
    ensures Exact(MeterRows(parent, gens, index, env, rows, lib))
    decreases parent, 1, |gens| - index, 1
  {
    if index < |gens| {
      ExprCrashes(gens[index].iter, env, lib);
      assert MeterRows(parent, gens, index, env, rows, lib)
             == Charge(Rows(|rows|), MeterGenerator(parent, gens, index, env, rows, lib));
      var iterable := Meter(gens[index].iter, env, lib);
      if iterable.result.Ok? && Iterate(iterable.result.value).Ok? {
        RowsOfCrash(parent, gens, index, Iterate(iterable.result.value).value, env, rows, lib);
      }
    }
  }

  lemma {:induction false} RowsOfCrash(
    parent: Expr, gens: seq<Generator>, index: nat, values: seq<Value>, env: Env, rows: seq<Env>, lib: CallTable)
    requires Tells(lib) && index < |gens| && forall i :: 0 <= i < |gens| ==> gens[i] < parent
    ensures Exact(MeterRowsOf(parent, gens, index, values, env, rows, lib))
    decreases parent, 1, |gens| - index - 1, |values| + 3
  {
    if values != [] {
      RowCrashes(parent, gens, index, values[0], env, rows, lib);
      var next := MeterRowOf(parent, gens, index, values[0], env, rows, lib);
      if next.result.Ok? {
        RowsOfCrash(parent, gens, index, values[1..], env, next.result.value, lib);
      }
    }
  }

  lemma {:induction false} RowCrashes(
    parent: Expr, gens: seq<Generator>, index: nat, value: Value, env: Env, rows: seq<Env>, lib: CallTable)
    requires Tells(lib) && index < |gens| && forall i :: 0 <= i < |gens| ==> gens[i] < parent
    ensures Exact(MeterRowOf(parent, gens, index, value, env, rows, lib))
    decreases parent, 1, |gens| - index - 1, 2
  {
    hide MeterRows, TargetRaises, BindTarget;
    TargetCrashes(gens[index].target, value, env);
    var bound := BindTarget(gens[index].target, value, env);
    if bound.Ok? {
      RowsCrash(parent, gens, index + 1, bound.value, rows, lib);
    }
  }

  lemma {:induction false} OverCrash(parent: Expr, elt: Expr, rows: seq<Env>, before: seq<Value>, lib: CallTable)
    requires Tells(lib) && elt < parent
    ensures Exact(MeterOver(parent, elt, rows, before, lib))
    decreases parent, 1, |rows|
  {
    hide Meter, MeterOne;
    if rows != [] {
      OneCrashes(elt, rows[0], before, lib);
      var next := MeterOne(elt, rows[0], before, lib);
      if next.result.Ok? {
        OverCrash(parent, elt, rows[1..], next.result.value, lib);
      }
    }
  }

  lemma {:induction false} OneCrashes(elt: Expr, row: Env, before: seq<Value>, lib: CallTable)
    requires Tells(lib)
    ensures Exact(MeterOne(elt, row, before, lib))
    decreases elt, 6, 0
  {
    hide Meter;
    ExprCrashes(elt, row, lib);
  }

  lemma {:induction false} PairsCrash(
    parent: Expr, key: Expr, value: Expr, rows: seq<Env>, before: seq<Value>, lib: CallTable)
    requires Tells(lib) && key < parent && value < parent
    ensures Exact(MeterPairsOver(parent, key, value, rows, before, lib))
    decreases parent, 1, |rows|
  {
    hide Meter, MeterPair;
    if rows != [] {
      PairCrashes(parent, key, value, rows[0], before, lib);
      var next := MeterPair(parent, key, value, rows[0], before, lib);
      if next.result.Ok? {
        PairsCrash(parent, key, value, rows[1..], next.result.value, lib);
      }
    }
  }

  lemma {:induction false} PairCrashes(
    parent: Expr, key: Expr, value: Expr, row: Env, before: seq<Value>, lib: CallTable)
    requires Tells(lib) && key < parent && value < parent
    ensures Exact(MeterPair(parent, key, value, row, before, lib))
    decreases parent, 0, 0
  {
    hide Meter;
    ExprCrashes(key, row, lib);
    ExprCrashes(value, row, lib);
  }

  /** The same for modules. */
  lemma {:induction false} ModuleCrashes(stmts: seq<Stmt>, env: Env, reserved: set<string>, lib: CallTable)
    requires Tells(lib)
    ensures Exact(MeterModule(stmts, env, reserved, lib))
    decreases |stmts|
  {
    if stmts != [] {
      StatementCrashes(stmts[0], env, reserved, lib);
      var next := MeterStmt(stmts[0], env, reserved, lib);
      if next.result.Ok? {
        ModuleCrashes(stmts[1..], next.result.value, reserved, lib);
      }
    }
  }

  lemma {:induction false} StatementCrashes(s: Stmt, env: Env, reserved: set<string>, lib: CallTable)
    requires Tells(lib)
    ensures Exact(MeterStmt(s, env, reserved, lib))
  {
    hide Meter;
    if s.Assign? {
      ExprCrashes(s.value, env, lib);
      if Den(s.value, env, lib).Ok? {
        NamesNeverCrash(s.targets, Den(s.value, env, lib).value, env);
      }
    }
  }

  lemma {:induction false} NamesNeverCrash(targets: seq<Option<string>>, v: Value, env: Env)
    ensures !BindNames(targets, v, env).Crash?
  {
    if targets != [] && targets[0].Some? {
      NamesNeverCrash(targets[1..], v, Bound(env, targets[0].value, v));
    }
  }

  // ---- Expressions that do raise -----------------------------------------------------------------------------

  /** And the operations do raise: a membership test of operands that are values raises exactly when the
      test itself does. */
  lemma {:induction false} MembershipExpression(left: Expr, right: Expr, env: Env, lib: CallTable)
    requires Den(left, env, lib).Ok? && Den(right, env, lib).Ok?
    ensures Den(Compare(left, [Link(In, right)]), env, lib).Crash?
            <==> Contains(Den(left, env, lib).value, Den(right, env, lib).value).Crash?
  {
    var link := Link(In, right);
    var e, chain := Compare(left, [link]), Chain(Den(left, env, lib).value, true);
    var next := MeterLink(chain, link, env, lib);
    assert e.links[0] == link && e.links[1..] == [];
    assert MeterBody(e, env, lib).result == Truth(MeterLinks(e, chain, e.links, env, lib)).result;
    if next.result.Ok? {
      assert MeterLinks(e, next.result.value, [], env, lib).result == next.result;
    }
  }

  /** A literal raises exactly if its text has no UTF-8 form. */
  lemma {:induction false} LiteralCrashes(e: Expr, env: Env, lib: CallTable)
    requires e.Const? || e.SurrogateText? || e.FString?
    ensures Den(e, env, lib).Crash? <==> e.SurrogateText? || (e.FString? && TextRaises(e.parts))
  {
    match e
    case Const(v) => assert MeterBody(e, env, lib) == Constant(v);
    case SurrogateText => assert MeterBody(e, env, lib).result.Crash?;
    case FString(parts) =>
      TextCrashes(parts);
      assert MeterBody(e, env, lib) == FStringOf(parts);
  }
}
