/** What literals, displays and calls are charged for, when their parts are values. */
module Meters {
  import opened Options
  import opened StaticValues
  import opened PythonValues
  import opened Expressions

  /** An upper bound on charges, with no row and no length check beyond the limit. */
  predicate AtMost(u: Use, steps: nat, items: nat, bytes: nat, depth: nat) {
    && u.steps <= steps && u.items <= items && u.bytes <= bytes && u.depth <= depth
    && u.length <= MAX_SEQUENCE_ITEMS && u.rows == 0
  }

  // ---- Forms of expressions, when their parts are values ----------------------------------------------------

  lemma {:induction false} NextElement(parent: Expr, elts: seq<Expr>, wrapped: bool, before: seq<Value>, env: Env,
      lib: CallTable, v: Value)
    requires elts != [] && (forall i :: 0 <= i < |elts| ==> elts[i] < parent) && !elts[0].Starred?
             && Meter(elts[0], env, lib).result == Ok(v)
    ensures MeterElements(parent, elts, wrapped, before, env, lib) ==
            Charge(Meter(elts[0], env, lib).use, MeterElements(parent, elts[1..], wrapped, before + [v], env, lib))
  {
    var next := MeterElement(elts[0], wrapped, before, env, lib);
    assert next.result == Ok(before + [v]) && next.use == Join(Meter(elts[0], env, lib).use, NOTHING);
    assert next.use == Meter(elts[0], env, lib).use;
  }

  lemma {:induction false} NoElements(parent: Expr, wrapped: bool, before: seq<Value>, env: Env, lib: CallTable)
    ensures MeterElements(parent, [], wrapped, before, env, lib) == Metered(Ok(before), NOTHING)
  {
  }

  lemma {:induction false} OneElement(parent: Expr, elts: seq<Expr>, wrapped: bool, env: Env, lib: CallTable, v: Value)
    requires |elts| == 1 && elts[0] < parent && !elts[0].Starred? && Meter(elts[0], env, lib).result == Ok(v)
    ensures MeterElements(parent, elts, wrapped, [], env, lib) == Metered(Ok([v]), Meter(elts[0], env, lib).use)
  {
    NextElement(parent, elts, wrapped, [], env, lib, v);
    assert elts[1..] == [] && [] + [v] == [v];
    NoElements(parent, wrapped, [v], env, lib);
  }

  lemma {:induction false} TwoElements(parent: Expr, elts: seq<Expr>, env: Env, lib: CallTable, v: Value, w: Value)
    requires |elts| == 2 && elts[0] < parent && elts[1] < parent && !elts[0].Starred? && !elts[1].Starred?
    requires Meter(elts[0], env, lib).result == Ok(v) && Meter(elts[1], env, lib).result == Ok(w)
    ensures MeterElements(parent, elts, true, [], env, lib) ==
            Metered(Ok([v, w]), Join(Meter(elts[0], env, lib).use, Meter(elts[1], env, lib).use))
  {
    NextElement(parent, elts, true, [], env, lib, v);
    assert [] + [v] == [v] && [v] + [w] == [v, w];
    var rest := elts[1..];
    assert |rest| == 1 && rest[0] == elts[1] && rest[1..] == [];
    NextElement(parent, rest, true, [v], env, lib, w);
    NoElements(parent, true, [v, w], env, lib);
  }

  lemma {:induction false} OneKeyword(parent: Expr, keywords: seq<Keyword>, env: Env, lib: CallTable, v: Value)
    requires |keywords| == 1 && keywords[0] < parent && keywords[0].name.Some?
             && Meter(keywords[0].value, env, lib).result == Ok(v)
    ensures MeterKeywords(parent, keywords, [], env, lib).result == Ok([(keywords[0].name.value, v)])
    ensures MeterKeywords(parent, keywords, [], env, lib).use == Meter(keywords[0].value, env, lib).use
  {
    hide Meter;
    var field := (keywords[0].name.value, v);
    var next := MeterKeyword(keywords[0], [], env, lib);
    assert [] + [field] == [field];
    assert next.result == Ok([field]) && next.use == Meter(keywords[0].value, env, lib).use;
    assert keywords[1..] == [];
  }

  lemma {:induction false} CallIs(e: Expr, env: Env, lib: CallTable, p: Metered<seq<Value>>, k: Metered<Fields>,
      c: Metered<Value>)
    requires e.Call? && e.func.Some?
    requires p == MeterElements(e, e.args, true, [], env, lib) && k == MeterKeywords(e, e.keywords, [], env, lib)
    requires p.result.Ok? && k.result.Ok? && c == Applied(e.func.value, p.result.value, k.result.value, lib)
    ensures Meter(e, env, lib) == Entered(Charge(p.use, Charge(k.use, c)))
  {
    assert MeterBody(e, env, lib) == MeterCall(e, env, lib);
  }

  lemma {:induction false} CallAtMost(p: Use, k: Use, c: Metered<Value>, steps: nat, items: nat, bytes: nat, depth: nat)
    requires c.use.(wide := false, raises := false) == NOTHING && AtMost(Join(p, k), steps, items, bytes, depth)
    ensures AtMost(Entered(Charge(p, Charge(k, c))).use, steps + 1, items, bytes, depth + 1)
    ensures c.use.wide ==> Entered(Charge(p, Charge(k, c))).use.wide
  {
  }

  /** A call that is charged for nothing itself. */
  lemma {:induction false} CallMeter(e: Expr, env: Env, lib: CallTable, p: Metered<seq<Value>>, k: Metered<Fields>,
      steps: nat, items: nat, bytes: nat, depth: nat)
    requires e.Call? && e.func.Some?
    requires p == MeterElements(e, e.args, true, [], env, lib) && k == MeterKeywords(e, e.keywords, [], env, lib)
    requires p.result.Ok? && k.result.Ok? && lib.charged(e.func.value, p.result.value, k.result.value).None?
    requires AtMost(Join(p.use, k.use), steps, items, bytes, depth)
    ensures Den(e, env, lib) == lib.apply(e.func.value, p.result.value, k.result.value)
    ensures lib.widens(e.func.value, p.result.value, k.result.value) ==> Meter(e, env, lib).use.wide
    ensures AtMost(Meter(e, env, lib).use, steps + 1, items, bytes, depth + 1)
  {
    hide Meter, MeterElements, MeterKeywords;
    var c := Applied(e.func.value, p.result.value, k.result.value, lib);
    CallIs(e, env, lib, p, k, c);
    CallAtMost(p.use, k.use, c, steps, items, bytes, depth);
  }

  lemma {:induction false} NoKeywords(parent: Expr, env: Env, lib: CallTable)
    ensures MeterKeywords(parent, [], [], env, lib) == Metered(Ok([]), NOTHING)
  {
  }

  // ---- Literals -------------------------------------------------------------------------------------------

  /** Texts of at most one character. */
  predicate SmallTexts(texts: seq<Value>) {
    forall i :: 0 <= i < |texts| ==> texts[i].Str? && |texts[i].s| <= 1
  }

  function Constants(texts: seq<Value>): (r: seq<Expr>)
    ensures |r| == |texts| && forall i :: 0 <= i < |texts| ==> r[i] == Const(texts[i])
  {
    seq(|texts|, i requires 0 <= i < |texts| => Const(texts[i]))
  }

  lemma {:induction false} TextLength(s: string)
    ensures Utf8Length(s) <= 4 * |s|
  {
    if s != "" {
      TextLength(s[1..]);
    }
  }

  lemma {:induction false} TextMeter(v: Value, env: Env, lib: CallTable)
    requires v.Str?
    ensures Meter(Const(v), env, lib).result == Ok(v) && AtMost(Meter(Const(v), env, lib).use, 1, 0, 4 * |v.s|, 1)
  {
    assert MeterBody(Const(v), env, lib) == Constant(v);
    TextLength(v.s);
  }

  lemma {:induction false} LiteralElements(parent: Expr, texts: seq<Value>, elts: seq<Expr>, wrapped: bool,
      before: seq<Value>, env: Env, lib: CallTable)
    requires SmallTexts(texts) && elts == Constants(texts) && forall i :: 0 <= i < |elts| ==> elts[i] < parent
    ensures var m := MeterElements(parent, elts, wrapped, before, env, lib);
            m.result == Ok(before + texts) && AtMost(m.use, |texts|, 0, 4 * |texts|, 1)
    decreases |texts|
  {
    if texts == [] {
      assert before + texts == before;
    } else {
      TextMeter(texts[0], env, lib);
      assert elts[0] == Const(texts[0]) && elts[1..] == Constants(texts[1..]);
      hide Constants, MeterBody;
      LiteralElements(parent, texts[1..], elts[1..], wrapped, before + [texts[0]], env, lib);
      HeadOnto(before, texts);
    }
  }

  lemma {:induction false} HeadOnto(before: seq<Value>, texts: seq<Value>)
    requires texts != []
    ensures before + [texts[0]] + texts[1..] == before + texts
  {
  }

  /** A set display of scalars that are all different. */
  lemma {:induction false} SetMeter(e: Expr, items: seq<Value>, env: Env, lib: CallTable, m: Metered<seq<Value>>,
      bytes: nat)
    requires e.Display? && e.display == SetDisplay && m == MeterElements(e, e.elts, false, [], env, lib)
    requires m.result == Ok(items) && ScalarSet(items) == Ok(FrozenSet(items)) && AtMost(m.use, |items|, 0, bytes, 1)
    requires |e.elts| == |items| <= MAX_SEQUENCE_ITEMS
    ensures Meter(e, env, lib).result == Ok(FrozenSet(items))
    ensures AtMost(Meter(e, env, lib).use, |items| + 1, |items|, bytes, 2)
  {
    hide MeterElements, ScalarSet;
    assert MeterBody(e, env, lib)
           == Charge(Length(|items|), Metered(Ok(FrozenSet(items)), Join(m.use, Items(|items|))));
  }
}
