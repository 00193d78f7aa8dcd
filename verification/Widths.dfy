/** Which evaluations keep every value within the length limit: exactly those in which no call goes beyond
    its guard. */
module Widths {
  import opened Options
  import opened StaticValues
  import opened PythonValues
  import opened Expressions
  import opened Bounds

  ghost predicate RowsBounded(rows: seq<Env>) {
    forall i :: 0 <= i < |rows| ==> EnvBounded(rows[i])
  }

  /** With bounded arguments a call that returns goes beyond the limit exactly when its guard says so. */
  ghost predicate Guarded(lib: CallTable) {
    forall name, positional, keywords ::
      AllBounded(positional) && FieldsBounded(keywords) && lib.apply(name, positional, keywords).Ok?
      ==> (Bounded(lib.apply(name, positional, keywords).value) <==> !lib.widens(name, positional, keywords))
  }

  /** No length check fails. */
  predicate Short(u: Use) {
    u.length <= MAX_SEQUENCE_ITEMS
  }

  /** A value beyond the limit was produced exactly if some call went beyond its guard. */
  predicate Told(u: Use) {
    u.long <==> u.wide
  }

  lemma {:induction false} ExprWidth(e: Expr, env: Env, lib: CallTable)
    requires Guarded(lib) && EnvBounded(env) && Meter(e, env, lib).result.Ok? && Short(Meter(e, env, lib).use)
    ensures Told(Meter(e, env, lib).use) && (!Meter(e, env, lib).use.wide ==> Bounded(Meter(e, env, lib).result.value))
    decreases e, 5, 0
  {
    BodyWidth(e, env, lib);
  }

  /** Before the value itself is looked at. */
  ghost predicate BodyTold(m: Metered<Value>)
    requires m.result.Ok?
  {
    if m.use.wide then m.use.long || !Bounded(m.result.value) else !m.use.long && Bounded(m.result.value)
  }

  lemma {:induction false} BodyWidth(e: Expr, env: Env, lib: CallTable)
    requires Guarded(lib) && EnvBounded(env) && MeterBody(e, env, lib).result.Ok? && Short(MeterBody(e, env, lib).use)
    ensures BodyTold(MeterBody(e, env, lib))
    decreases e, 4, 0
  {
    match e
    case Const(v) => ScalarBounded(v);
    case Name(id) =>
      if id !in env.bindings {
        ScalarBounded(NameOf(id, env).value);
      }
    case FString(parts) => ScalarBounded(FStringOf(parts).result.value);
    case Starred(inner) => ExprWidth(inner, env, lib);
    case Display(display, elts) => DisplayWidth(e, env, lib);
    case DictDisplay(entries) => DictWidth(e, env, lib);
    case Comp(comp, key, elt, gens) => CompWidth(e, env, lib);
    case Call(func, args, keywords) => CallWidth(e, env, lib);
    case Subscript(container, index) =>
      ExprWidth(container, env, lib);
      ExprWidth(index, env, lib);
      if Bounded(Meter(container, env, lib).result.value) {
        ItemBounded(Meter(container, env, lib).result.value, Meter(index, env, lib).result.value);
      }
    case Compare(left, links) =>
      ExprWidth(left, env, lib);
      var first := Meter(left, env, lib);
      LinksWidth(e, Chain(first.result.value, true), links, env, lib);
      ScalarBounded(MeterBody(e, env, lib).result.value);
    case IfExp(test, body, orelse) =>
      ExprWidth(test, env, lib);
      ExprWidth(if Meter(test, env, lib).result.value.b then body else orelse, env, lib);
    case Add(left, right) => AddWidth(e, env, lib);
    case BitOr(left, right) => UnionWidth(e, env, lib);
    case Attribute(object_, attr) =>
      ExprWidth(object_, env, lib);
      var v := Meter(object_, env, lib).result.value;
      MatcherBounded(v);
      SequenceBounded(Tuple(v.matchers));
  }

  lemma {:induction false} AddWidth(e: Expr, env: Env, lib: CallTable)
    requires e.Add?
    requires Guarded(lib) && EnvBounded(env) && MeterBody(e, env, lib).result.Ok? && Short(MeterBody(e, env, lib).use)
    ensures BodyTold(MeterBody(e, env, lib))
    decreases e, 3, 0
  {
    ExprWidth(e.left, env, lib);
    ExprWidth(e.right, env, lib);
    var a, b := Meter(e.left, env, lib).result.value, Meter(e.right, env, lib).result.value;
    if Bounded(a) && Bounded(b) {
      SumBounded(a, b);
    }
  }

  lemma {:induction false} UnionWidth(e: Expr, env: Env, lib: CallTable)
    requires e.BitOr?
    requires Guarded(lib) && EnvBounded(env) && MeterBody(e, env, lib).result.Ok? && Short(MeterBody(e, env, lib).use)
    ensures BodyTold(MeterBody(e, env, lib))
    decreases e, 3, 0
  {
    ExprWidth(e.left, env, lib);
    ExprWidth(e.right, env, lib);
    var a, b := Meter(e.left, env, lib).result.value, Meter(e.right, env, lib).result.value;
    if Bounded(a) && Bounded(b) {
      UnionBounded(a, b);
    }
  }

  lemma {:induction false} DisplayWidth(e: Expr, env: Env, lib: CallTable)
    requires e.Display?
    requires Guarded(lib) && EnvBounded(env) && MeterBody(e, env, lib).result.Ok? && Short(MeterBody(e, env, lib).use)
    ensures BodyTold(MeterBody(e, env, lib))
    decreases e, 3, 0
  {
    var m := MeterElements(e, e.elts, false, [], env, lib);
    assert m.result.Ok? && Short(m.use) && |m.result.value| <= MAX_SEQUENCE_ITEMS;
    ElementsWidth(e, e.elts, false, [], env, lib);
    if !m.use.wide {
      DistinctBounded(m.result.value);
      SequenceBounded(Tuple(m.result.value));
    }
  }

  lemma {:induction false} DictWidth(e: Expr, env: Env, lib: CallTable)
    requires e.DictDisplay?
    requires Guarded(lib) && EnvBounded(env) && MeterBody(e, env, lib).result.Ok? && Short(MeterBody(e, env, lib).use)
    ensures BodyTold(MeterBody(e, env, lib))
    decreases e, 3, 0
  {
    var m := MeterEntries(e, e.entries, [], env, lib);
    assert m.result.Ok? && Short(m.use) && |m.result.value| <= MAX_SEQUENCE_ITEMS;
    EntriesWidth(e, e.entries, [], env, lib);
    DictBounded(m.result.value);
  }

  lemma {:induction false} CallWidth(e: Expr, env: Env, lib: CallTable)
    requires e.Call? && e.func.Some?
    requires Guarded(lib) && EnvBounded(env) && MeterBody(e, env, lib).result.Ok? && Short(MeterBody(e, env, lib).use)
    ensures BodyTold(MeterBody(e, env, lib))
    decreases e, 3, 0
  {
    var p, k := MeterElements(e, e.args, true, [], env, lib), MeterKeywords(e, e.keywords, [], env, lib);
    assert MeterBody(e, env, lib) == MeterCall(e, env, lib);
    assert p.result.Ok? && k.result.Ok? && Short(p.use) && Short(k.use);
    ElementsWidth(e, e.args, true, [], env, lib);
    KeywordsWidth(e, e.keywords, [], env, lib);
    if !p.use.wide && !k.use.wide {
      assert Applied(e.func.value, p.result.value, k.result.value, lib).result.Ok?;
    }
  }

  lemma {:induction false} CompWidth(e: Expr, env: Env, lib: CallTable)
    requires e.Comp?
    requires Guarded(lib) && EnvBounded(env) && MeterBody(e, env, lib).result.Ok? && Short(MeterBody(e, env, lib).use)
    ensures BodyTold(MeterBody(e, env, lib))
    decreases e, 3, 0
  {
    var total, rows := MeterComp(e, env, lib), MeterRows(e, e.gens, 0, env, [], lib);
    assert total.result.Ok? && Short(total.use) && rows.result.Ok? && Short(rows.use);
    RowsWidth(e, e.gens, 0, env, [], lib);
    if !rows.use.wide {
      if e.comp.DictComp? {
        PairsOverWidth(e, e.key, e.elt, rows.result.value, [], lib);
        var m := MeterPairsOver(e, e.key, e.elt, rows.result.value, [], lib);
        SequenceBounded(Tuple(m.result.value));
      } else {
        OverWidth(e, e.elt, rows.result.value, [], lib);
        var m := MeterOver(e, e.elt, rows.result.value, [], lib);
        if !m.use.wide {
          DistinctBounded(m.result.value);
          SequenceBounded(Tuple(m.result.value));
        }
      }
    }
  }

  lemma {:induction false} ElementWidth(elt: Expr, wrapped: bool, before: seq<Value>, env: Env, lib: CallTable)
    requires Guarded(lib) && EnvBounded(env) && AllBounded(before)
    requires MeterElement(elt, wrapped, before, env, lib).result.Ok?
             && Short(MeterElement(elt, wrapped, before, env, lib).use)
    ensures var m := MeterElement(elt, wrapped, before, env, lib);
            Told(m.use) && (!m.use.wide ==> AllBounded(m.result.value))
    decreases elt, 6, 0
  {
    ExprWidth(Picked(elt, wrapped), env, lib);
    var v := Meter(Picked(elt, wrapped), env, lib);
    if !v.use.wide && elt.Starred? {
      SequenceItemsBounded(v.result.value);
    }
  }

  lemma {:induction false} ElementsWidth(parent: Expr, elts: seq<Expr>, wrapped: bool, before: seq<Value>, env: Env,
      lib: CallTable)
    requires forall i :: 0 <= i < |elts| ==> elts[i] < parent
    requires Guarded(lib) && EnvBounded(env) && AllBounded(before)
    requires MeterElements(parent, elts, wrapped, before, env, lib).result.Ok?
             && Short(MeterElements(parent, elts, wrapped, before, env, lib).use)
    ensures var m := MeterElements(parent, elts, wrapped, before, env, lib);
            Told(m.use) && (!m.use.wide ==> AllBounded(m.result.value))
    decreases parent, 1, |elts|
  {
    if elts != [] {
      ElementWidth(elts[0], wrapped, before, env, lib);
      var next := MeterElement(elts[0], wrapped, before, env, lib);
      if !next.use.wide {
        ElementsWidth(parent, elts[1..], wrapped, next.result.value, env, lib);
      }
    }
  }

  lemma {:induction false} EntryWidth(entry: Entry, before: seq<(Value, Value)>, env: Env, lib: CallTable)
    requires Guarded(lib) && EnvBounded(env) && PairsBounded(before)
    requires MeterEntry(entry, before, env, lib).result.Ok? && Short(MeterEntry(entry, before, env, lib).use)
    ensures var m := MeterEntry(entry, before, env, lib); Told(m.use) && (!m.use.wide ==> PairsBounded(m.result.value))
    decreases entry, 6, 0
  {
    ExprWidth(entry.key.value, env, lib);
    ExprWidth(entry.value, env, lib);
  }

  lemma {:induction false} EntriesWidth(parent: Expr, entries: seq<Entry>, before: seq<(Value, Value)>, env: Env,
      lib: CallTable)
    requires forall i :: 0 <= i < |entries| ==> entries[i] < parent
    requires Guarded(lib) && EnvBounded(env) && PairsBounded(before)
    requires MeterEntries(parent, entries, before, env, lib).result.Ok?
             && Short(MeterEntries(parent, entries, before, env, lib).use)
    ensures var m := MeterEntries(parent, entries, before, env, lib);
            Told(m.use) && (!m.use.wide ==> PairsBounded(m.result.value))
    decreases parent, 1, |entries|
  {
    if entries != [] {
      EntryWidth(entries[0], before, env, lib);
      var next := MeterEntry(entries[0], before, env, lib);
      if !next.use.wide {
        EntriesWidth(parent, entries[1..], next.result.value, env, lib);
      }
    }
  }

  lemma {:induction false} KeywordsWidth(parent: Expr, keywords: seq<Keyword>, before: Fields, env: Env, lib: CallTable)
    requires forall i :: 0 <= i < |keywords| ==> keywords[i] < parent
    requires Guarded(lib) && EnvBounded(env) && FieldsBounded(before)
    requires MeterKeywords(parent, keywords, before, env, lib).result.Ok?
             && Short(MeterKeywords(parent, keywords, before, env, lib).use)
    ensures var m := MeterKeywords(parent, keywords, before, env, lib);
            Told(m.use) && (!m.use.wide ==> FieldsBounded(m.result.value))
    decreases parent, 1, |keywords|
  {
    if keywords != [] {
      ExprWidth(keywords[0].value, env, lib);
      var next := MeterKeyword(keywords[0], before, env, lib);
      if !next.use.wide {
        KeywordsWidth(parent, keywords[1..], next.result.value, env, lib);
      }
    }
  }

  lemma {:induction false} LinksWidth(parent: Expr, chain: Chain, links: seq<Link>, env: Env, lib: CallTable)
    requires forall i :: 0 <= i < |links| ==> links[i] < parent
    requires Guarded(lib) && EnvBounded(env)
    requires MeterLinks(parent, chain, links, env, lib).result.Ok?
             && Short(MeterLinks(parent, chain, links, env, lib).use)
    ensures Told(MeterLinks(parent, chain, links, env, lib).use)
    decreases parent, 1, |links|
  {
    if links != [] {
      ExprWidth(links[0].right, env, lib);
      var next := MeterLink(chain, links[0], env, lib);
      LinksWidth(parent, next.result.value, links[1..], env, lib);
    }
  }

  lemma {:induction false} RowsWidth(parent: Expr, gens: seq<Generator>, index: nat, env: Env, rows: seq<Env>,
      lib: CallTable)
    requires index <= |gens| && forall i :: 0 <= i < |gens| ==> gens[i] < parent
    requires Guarded(lib) && EnvBounded(env) && RowsBounded(rows)
    requires MeterRows(parent, gens, index, env, rows, lib).result.Ok?
             && Short(MeterRows(parent, gens, index, env, rows, lib).use)
    ensures var m := MeterRows(parent, gens, index, env, rows, lib);
            Told(m.use) && (!m.use.wide ==> RowsBounded(m.result.value))
    decreases parent, 1, |gens| - index, 1
  {
    if index < |gens| {
      assert MeterRows(parent, gens, index, env, rows, lib)
             == Charge(Rows(|rows|), MeterGenerator(parent, gens, index, env, rows, lib));
      var iterable := Meter(gens[index].iter, env, lib);
      ExprWidth(gens[index].iter, env, lib);
      if !iterable.use.wide {
        IterateBounded(iterable.result.value);
        RowsOfWidth(parent, gens, index, Iterate(iterable.result.value).value, env, rows, lib);
      }
    }
  }

  lemma {:induction false} RowsOfWidth(
    parent: Expr, gens: seq<Generator>, index: nat, values: seq<Value>, env: Env, rows: seq<Env>, lib: CallTable)
    requires index < |gens| && forall i :: 0 <= i < |gens| ==> gens[i] < parent
    requires Guarded(lib) && EnvBounded(env) && RowsBounded(rows) && AllBounded(values)
    requires MeterRowsOf(parent, gens, index, values, env, rows, lib).result.Ok?
             && Short(MeterRowsOf(parent, gens, index, values, env, rows, lib).use)
    ensures var m := MeterRowsOf(parent, gens, index, values, env, rows, lib);
            Told(m.use) && (!m.use.wide ==> RowsBounded(m.result.value))
    decreases parent, 1, |gens| - index - 1, |values| + 3
  {
    if values != [] {
      var bound := BindTarget(gens[index].target, values[0], env);
      BindTargetBounded(gens[index].target, values[0], env);
      RowsWidth(parent, gens, index + 1, bound.value, rows, lib);
      var next := MeterRowOf(parent, gens, index, values[0], env, rows, lib);
      var more := MeterRows(parent, gens, index + 1, bound.value, rows, lib);
      assert next.result == more.result && next.use.(raises := false) == more.use.(raises := false);
      if !next.use.wide {
        RowsOfWidth(parent, gens, index, values[1..], env, next.result.value, lib);
      }
    }
  }

  lemma {:induction false} OverWidth(parent: Expr, elt: Expr, rows: seq<Env>, before: seq<Value>, lib: CallTable)
    requires elt < parent && Guarded(lib) && RowsBounded(rows) && AllBounded(before)
    requires MeterOver(parent, elt, rows, before, lib).result.Ok?
             && Short(MeterOver(parent, elt, rows, before, lib).use)
    ensures var m := MeterOver(parent, elt, rows, before, lib);
            Told(m.use) && (!m.use.wide ==> AllBounded(m.result.value))
    decreases parent, 1, |rows|
  {
    if rows != [] {
      ExprWidth(elt, rows[0], lib);
      var next := MeterOne(elt, rows[0], before, lib);
      if !next.use.wide {
        OverWidth(parent, elt, rows[1..], next.result.value, lib);
      }
    }
  }

  lemma {:induction false} PairsOverWidth(parent: Expr, key: Expr, value: Expr, rows: seq<Env>, before: seq<Value>,
      lib: CallTable)
    requires key < parent && value < parent && Guarded(lib) && RowsBounded(rows) && AllBounded(before)
    requires MeterPairsOver(parent, key, value, rows, before, lib).result.Ok?
             && Short(MeterPairsOver(parent, key, value, rows, before, lib).use)
    ensures var m := MeterPairsOver(parent, key, value, rows, before, lib);
            Told(m.use) && (!m.use.wide ==> AllBounded(m.result.value)) && |m.result.value| == |before| + |rows|
    decreases parent, 1, |rows|
  {
    if rows != [] {
      ExprWidth(key, rows[0], lib);
      ExprWidth(value, rows[0], lib);
      var k, v := Meter(key, rows[0], lib), Meter(value, rows[0], lib);
      SequenceBounded(PairOf(k.result.value, v.result.value));
      var next := MeterPair(parent, key, value, rows[0], before, lib);
      if next.use.wide {
        PairsOverLength(parent, key, value, rows[1..], next.result.value, lib);
      } else {
        PairsOverWidth(parent, key, value, rows[1..], next.result.value, lib);
      }
    }
  }

  lemma {:induction false} PairsOverLength(parent: Expr, key: Expr, value: Expr, rows: seq<Env>, before: seq<Value>,
      lib: CallTable)
    requires key < parent && value < parent && MeterPairsOver(parent, key, value, rows, before, lib).result.Ok?
    ensures |MeterPairsOver(parent, key, value, rows, before, lib).result.value| == |before| + |rows|
    decreases |rows|
  {
    if rows != [] {
      PairsOverLength(parent, key, value, rows[1..], MeterPair(parent, key, value, rows[0], before, lib).result.value,
        lib);
    }
  }

  /** Main result: a module that denotes bindings, and in which no length check fails, produces a sequence or
      mapping beyond the limit exactly if some call goes beyond its guard; without such a call every binding
      is within the limit. */
  lemma {:induction false} ModuleWidth(stmts: seq<Stmt>, env: Env, reserved: set<string>, lib: CallTable)
    requires Guarded(lib) && EnvBounded(env)
    requires MeterModule(stmts, env, reserved, lib).result.Ok? && Short(MeterModule(stmts, env, reserved, lib).use)
    ensures var m := MeterModule(stmts, env, reserved, lib); Told(m.use) && (!m.use.wide ==> EnvBounded(m.result.value))
    decreases |stmts|
  {
    if stmts != [] {
      var next := MeterStmt(stmts[0], env, reserved, lib);
      if stmts[0].Assign? {
        ExprWidth(stmts[0].value, env, lib);
        var v := Meter(stmts[0].value, env, lib);
        if !v.use.wide {
          BindNamesBounded(stmts[0].targets, v.result.value, env);
        }
      }
      if !next.use.wide {
        ModuleWidth(stmts[1..], next.result.value, reserved, lib);
      }
    }
  }
}
